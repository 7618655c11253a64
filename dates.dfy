/**
 * Text derived from a sidecar's capture time: the `yyyyMMdd_HHmmss_` prefix of a
 * renamed file and the `<year>/<month>` folder a sidecar should sit in.
 */
module Dates {
  import opened Results
  import opened Numbers
  import opened Sidecar
  import opened Paths

  /** What luxon's `toFormat` returns for an invalid DateTime. */
  const InvalidDateTime := "Invalid DateTime"

  /** `TakenAtDateTime.toFormat('yyyyMMdd_HHmmss_')`. */
  function DatePrefix(t: Option<DateTime>): string {
    match t
    case None => InvalidDateTime
    case Some(d) =>
      PadStart(d.year, 4) + PadStart(d.month, 2) + PadStart(d.day, 2) + "_"
      + PadStart(d.hour, 2) + PadStart(d.minute, 2) + PadStart(d.second, 2) + "_"
  }

  /** Reads a `yyyyMMdd_HHmmss_` prefix back into its six fields. */
  function ParseDatePrefix(s: string): Option<DateTime> {
    if && |s| == 16 && s[8] == '_' && s[15] == '_'
       && AllDigits(s[0..4]) && AllDigits(s[4..6]) && AllDigits(s[6..8])
       && AllDigits(s[9..11]) && AllDigits(s[11..13]) && AllDigits(s[13..15])
    then
      Some(DateTime(DecValue(s[0..4]), DecValue(s[4..6]), DecValue(s[6..8]),
                    DecValue(s[9..11]), DecValue(s[11..13]), DecValue(s[13..15])))
    else None
  }

  /** Where the six fields sit in a prefix assembled from a four-character year and two-character fields. */
  lemma PrefixLayout(y: string, mo: string, da: string, h: string, mi: string, se: string)
    requires |y| == 4 && |mo| == 2 && |da| == 2 && |h| == 2 && |mi| == 2 && |se| == 2
    ensures var s := y + mo + da + "_" + h + mi + se + "_";
      && |s| == 16 && s[8] == '_' && s[15] == '_'
      && s[0..4] == y && s[4..6] == mo && s[6..8] == da
      && s[9..11] == h && s[11..13] == mi && s[13..15] == se
  {
    var date := y + mo + da;
    var time := h + mi + se;
    assert date[0..4] == y && date[4..6] == mo && date[6..8] == da;
    assert time[0..2] == h && time[2..4] == mi && time[4..6] == se;
    var s := y + mo + da + "_" + h + mi + se + "_";
    assert s == date + "_" + time + "_";
    assert s[..8] == date;
    assert s[9..15] == time;
  }

  /**
   * For a valid time in years 0 to 9999 the prefix is sixteen characters: four year
   * digits and two digits each for month, day, hour, minute and second, with '_' after
   * the date and at the end; reading it back gives the time.
   */
  lemma DatePrefixRoundTrip(d: DateTime)
    requires ValidDateTime(d) && 0 <= d.year <= 9999
    ensures |DatePrefix(Some(d))| == 16
    ensures DatePrefix(Some(d))[8] == '_' && DatePrefix(Some(d))[15] == '_'
    ensures ParseDatePrefix(DatePrefix(Some(d))) == Some(d)
  {
    assert Pow(10, 2) == 100;
    assert Pow(10, 4) == 10000;
    PadStartExact(d.year, 4);
    PadStartExact(d.month, 2);
    PadStartExact(d.day, 2);
    PadStartExact(d.hour, 2);
    PadStartExact(d.minute, 2);
    PadStartExact(d.second, 2);
    PrefixLayout(PadStart(d.year, 4), PadStart(d.month, 2), PadStart(d.day, 2),
                 PadStart(d.hour, 2), PadStart(d.minute, 2), PadStart(d.second, 2));
  }

  /** The characters a prefix is made of. */
  predicate PrefixChar(c: char) {
    IsDigit(c) || c == '-' || c == '_'
  }

  predicate PrefixText(s: string) {
    forall i :: 0 <= i < |s| ==> PrefixChar(s[i])
  }

  lemma PrefixTextConcat(a: string, b: string)
    requires PrefixText(a) && PrefixText(b)
    ensures PrefixText(a + b)
  {
    forall i | 0 <= i < |a + b| ensures PrefixChar((a + b)[i]) {
      if i < |a| { assert (a + b)[i] == a[i]; } else { assert (a + b)[i] == b[i - |a|]; }
    }
  }

  lemma PadStartIsPrefixText(n: int, w: nat)
    ensures PrefixText(PadStart(n, w))
  {
    var digits := if n < 0 then Decimal(-n) else Decimal(n);
    var z := Zeros(if |digits| >= w then 0 else w - |digits|);
    assert ZeroPad(digits, w) == z + digits;
    PrefixTextConcat(z, digits);
    if n < 0 {
      PrefixTextConcat("-", z + digits);
    }
  }

  /** The prefix never contains '.' or '/', so it stays inside one file-name stem. */
  lemma DatePrefixHasNoSeparators(t: Option<DateTime>)
    ensures '.' !in DatePrefix(t) && '/' !in DatePrefix(t)
  {
    match t
    case None =>
    case Some(d) =>
      var y, mo, da := PadStart(d.year, 4), PadStart(d.month, 2), PadStart(d.day, 2);
      var h, mi, se := PadStart(d.hour, 2), PadStart(d.minute, 2), PadStart(d.second, 2);
      PadStartIsPrefixText(d.year, 4);
      PadStartIsPrefixText(d.month, 2);
      PadStartIsPrefixText(d.day, 2);
      PadStartIsPrefixText(d.hour, 2);
      PadStartIsPrefixText(d.minute, 2);
      PadStartIsPrefixText(d.second, 2);
      PrefixTextConcat(y, mo);
      PrefixTextConcat(y + mo, da);
      PrefixTextConcat(y + mo + da, "_");
      PrefixTextConcat(y + mo + da + "_", h);
      PrefixTextConcat(y + mo + da + "_" + h, mi);
      PrefixTextConcat(y + mo + da + "_" + h + mi, se);
      PrefixTextConcat(y + mo + da + "_" + h + mi + se, "_");
      var s := DatePrefix(t);
      assert PrefixText(s);
  }

  /** `TakenAtDateTime.year.toString()`; luxon's year of an invalid DateTime is NaN. */
  function YearText(t: Option<DateTime>): string {
    match t
    case None => "NaN"
    case Some(d) => IntString(d.year)
  }

  /** `month < 10 ? '0' + month : month.toString()`; NaN is not below 10. */
  function MonthText(t: Option<DateTime>): string {
    match t
    case None => "NaN"
    case Some(d) => if d.month < 10 then "0" + IntString(d.month) else IntString(d.month)
  }

  /** `pathShouldBe`: `path.join(year, month)`. */
  function PathShouldBe(t: Option<DateTime>): Path {
    Join(YearText(t), MonthText(t))
  }

  /**
   * The folder a time asks for is always two segments, a year and a month, neither empty
   * and with one '/' between them; this holds for an invalid time ("NaN/NaN") too.
   */
  lemma PathShouldBeIsTwoLevels(t: Option<DateTime>)
    ensures PathShouldBe(t) == YearText(t) + "/" + MonthText(t)
    ensures YearText(t) != "" && YearText(t) != "." && '/' !in YearText(t)
    ensures MonthText(t) != "" && MonthText(t) != "." && '/' !in MonthText(t)
  {
    var y, m := YearText(t), MonthText(t);
    if t.Some? {
      var d := t.value;
      NumberText(d.year);
      NumberText(d.month);
      if d.month < 10 {
        assert m == "0" + IntString(d.month);
        assert m[0] == '0';
      }
    } else {
      assert y == "NaN" && m == "NaN";
    }
    assert y[|y| - 1] in y;
    JoinPlain(y, m);
  }

  /** A number's text is one or more characters, none of them '/' or '.'. */
  lemma NumberText(i: int)
    ensures var s := IntString(i); s != "" && '/' !in s && '.' !in s
  {
    var s := IntString(i);
    var ds := Decimal(if i < 0 then -i else i);
    forall j | 0 <= j < |ds| ensures ds[j] != '/' && ds[j] != '.' {
      assert IsDigit(ds[j]);
    }
    assert s == if i < 0 then "-" + ds else ds;
  }

  /** A month from 1 to 12 is written with two digits, as luxon's `MM` writes it. */
  lemma MonthTextIsPadded(d: DateTime)
    requires 1 <= d.month <= 12
    ensures MonthText(Some(d)) == PadStart(d.month, 2)
  {
    if d.month < 10 {
      assert Decimal(d.month) == [DigitChar(d.month)];
      assert PadStart(d.month, 2) == Zeros(1) + Decimal(d.month);
    } else {
      assert Decimal(d.month / 10) == [DigitChar(1)];
    }
  }

  /**
   * The month folder of a valid time is the two-digit month, the same two characters as
   * the month field of the rename prefix; for a four-digit year the whole folder is the
   * prefix's year and month with a '/' between them.
   */
  lemma PathShouldBeMatchesPrefix(d: DateTime)
    requires ValidDateTime(d) && 0 <= d.year <= 9999
    ensures |MonthText(Some(d))| == 2
    ensures MonthText(Some(d)) == DatePrefix(Some(d))[4..6]
    ensures 1000 <= d.year ==> PathShouldBe(Some(d)) == DatePrefix(Some(d))[0..4] + "/" + DatePrefix(Some(d))[4..6]
  {
    assert Pow(10, 2) == 100;
    assert Pow(10, 4) == 10000;
    var y, mo, da := PadStart(d.year, 4), PadStart(d.month, 2), PadStart(d.day, 2);
    var h, mi, se := PadStart(d.hour, 2), PadStart(d.minute, 2), PadStart(d.second, 2);
    PadStartExact(d.year, 4);
    PadStartExact(d.month, 2);
    PadStartExact(d.day, 2);
    PadStartExact(d.hour, 2);
    PadStartExact(d.minute, 2);
    PadStartExact(d.second, 2);
    MonthTextIsPadded(d);
    PrefixLayout(y, mo, da, h, mi, se);
    var s := DatePrefix(Some(d));
    assert s == y + mo + da + "_" + h + mi + se + "_";
    assert s[4..6] == mo;
    if 1000 <= d.year {
      FourDigitYear(d.year);
      assert YearText(Some(d)) == y;
      assert IsDigit(y[3]);
      JoinSeparated(y, mo);
    }
  }

  /** A year from 1000 on needs no padding: its text is the four-digit field. */
  lemma FourDigitYear(n: int)
    requires 1000 <= n
    ensures PadStart(n, 4) == IntString(n)
  {
    var a := Decimal(n / 1000);
    assert Decimal(n / 100) == a + [DigitChar((n / 100) % 10)];
    assert Decimal(n / 10) == Decimal(n / 100) + [DigitChar((n / 10) % 10)];
    assert Decimal(n) == Decimal(n / 10) + [DigitChar(n % 10)];
  }
}
