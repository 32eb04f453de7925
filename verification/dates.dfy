/** `getLocalDateString` and `getLocalDate`: a calendar date rendered as
    'YYYY-MM-DD' (the year through `String`, month and day through
    `padStart(2, '0')`), and the reading of such a string back into a date
    that `new Date(s + 'T12:00:00')` performs. The round trip proved here is
    what lets the rest of the model compare day numbers wherever the
    application compares date strings. */
module LocalDates {
  import opened Seqs
  import opened Types
  import opened Calendar
  import opened Text

  function Pow10(w: nat): (p: nat)
    ensures p >= 1
  {
    if w == 0 then 1 else 10 * Pow10(w - 1)
  }

  function DigitChar(k: int): (c: char)
    requires 0 <= k < 10
    ensures IsDigit(c) && c as int - '0' as int == k
  {
    ('0' as int + k) as char
  }

  /** `String(n)` for a natural number: its shortest decimal text. */
  function Decimal(n: nat): (s: string)
    ensures 1 <= |s|
    ensures forall i :: 0 <= i < |s| ==> IsDigit(s[i])
  {
    if n < 10 then [DigitChar(n)] else Decimal(n / 10) + [DigitChar(n % 10)]
  }

  /** The last w decimal digits of n, with leading zeros. */
  function Pad(n: nat, w: nat): (s: string)
    ensures |s| == w
    ensures forall i :: 0 <= i < |s| ==> IsDigit(s[i])
  {
    if w == 0 then [] else Pad(n / 10, w - 1) + [DigitChar(n % 10)]
  }

  /** `s.padStart(2, '0')`. */
  function PadStart2(s: string): (r: string)
    ensures |r| == if |s| >= 2 then |s| else 2
  {
    if |s| >= 2 then s else seq(2 - |s|, _ => '0') + s
  }

  /** Reading the w digits back yields the number, when it has at most w
      digits. */
  lemma {:induction false} PadValue(n: nat, w: nat)
    requires n < Pow10(w)
    ensures DigitsValue(Pad(n, w)) == n
  {
    if w > 0 {
      var s := Pad(n, w);
      PadValue(n / 10, w - 1);
      assert s[..|s| - 1] == Pad(n / 10, w - 1);
    }
  }

  /** Below 10^w, the shortest decimal text padded to w places is the
      fixed-width text. */
  lemma DecimalFourDigits(n: nat)
    requires 1000 <= n <= 9999
    ensures Decimal(n) == Pad(n, 4)
  {
    assert Decimal(n / 1000) == Pad(n / 1000, 1);
    assert Decimal(n / 100) == Pad(n / 100, 2);
    assert Decimal(n / 10) == Pad(n / 10, 3);
  }

  lemma PadStartTwoDigits(n: nat)
    requires n < 100
    ensures PadStart2(Decimal(n)) == Pad(n, 2)
  {
    if n < 10 {
      assert Pad(n, 2) == Pad(0, 1) + [DigitChar(n)];
    } else {
      assert Decimal(n / 10) == Pad(n / 10, 1);
    }
  }

  /** `${year}-${month + 1 padded}-${date padded}`. Negative years are
      rendered with their digits only (JavaScript would prefix a '-'). */
  function LocalDateString(c: CivilDate): string
    requires ValidCivil(c)
  {
    var y: nat := if c.year < 0 then -c.year else c.year;
    Decimal(y) + "-" + PadStart2(Decimal(c.month + 1)) + "-" + PadStart2(Decimal(c.date))
  }

  /** Reading of 'YYYY-MM-DD' (month 1-12): the fields of the text, or None
      when the text is not of that shape. */
  function ParseLocalDate(s: string): (r: Option<CivilDate>)
    ensures r.Some? ==> 0 <= r.value.year <= 9999 && -1 <= r.value.month <= 98
  {
    if |s| == 10 && s[4] == '-' && s[7] == '-'
       && AllDigits(s[..4]) && AllDigits(s[5..7]) && AllDigits(s[8..])
    then
      assert DigitsValue(s[..4]) < 10000 by { DigitsBound(s[..4]); }
      assert DigitsValue(s[5..7]) < 100 by { DigitsBound(s[5..7]); }
      Some(CivilDate(DigitsValue(s[..4]), DigitsValue(s[5..7]) - 1, DigitsValue(s[8..])))
    else None
  }

  lemma {:induction false} DigitsBound(s: string)
    requires forall i :: 0 <= i < |s| ==> IsDigit(s[i])
    ensures DigitsValue(s) < Pow10(|s|)
  {
    if s != [] {
      DigitsBound(s[..|s| - 1]);
    }
  }

  lemma ParseFields(ys: string, ms: string, ds: string)
    requires |ys| == 4 && |ms| == 2 && |ds| == 2
    requires AllDigits(ys) && AllDigits(ms) && AllDigits(ds)
    ensures ParseLocalDate(ys + "-" + ms + "-" + ds)
         == Some(CivilDate(DigitsValue(ys), DigitsValue(ms) - 1, DigitsValue(ds)))
  {
    var s := ys + "-" + ms + "-" + ds;
    DateFields(ys, ms, ds);
    assert AllDigits(s[..4]) && AllDigits(s[5..7]) && AllDigits(s[8..]);
  }

  /** Where the three fields sit in the joined text. */
  lemma DateFields(ys: string, ms: string, ds: string)
    requires |ys| == 4 && |ms| == 2 && |ds| == 2
    ensures var s := ys + "-" + ms + "-" + ds;
            |s| == 10 && s[4] == '-' && s[7] == '-' && s[..4] == ys && s[5..7] == ms && s[8..] == ds
  {
    var s := ys + "-" + ms + "-" + ds;
    assert s[..4] == ys;
    assert s[5..7] == ms;
    assert s[8..] == ds;
  }

  /** Round trip: for four-digit years the rendered text reads back as the
      same date, so two dates with the same text are the same date. */
  lemma LocalDateRoundTrip(c: CivilDate)
    requires ValidCivil(c) && 1000 <= c.year <= 9999
    ensures ParseLocalDate(LocalDateString(c)) == Some(c)
  {
    DecimalFourDigits(c.year);
    PadStartTwoDigits(c.month + 1);
    PadStartTwoDigits(c.date);
    assert Pow10(4) == 10000 && Pow10(2) == 100;
    PadValue(c.year, 4);
    PadValue(c.month + 1, 2);
    PadValue(c.date, 2);
    ParseFields(Pad(c.year, 4), Pad(c.month + 1, 2), Pad(c.date, 2));
  }

  /** Distinct days in years 1000-9999 have distinct date strings: string
      equality of dates is equality of day numbers. */
  lemma LocalDateStringInjective(d1: Day, d2: Day)
    requires 1000 <= Year(d1) <= 9999 && 1000 <= Year(d2) <= 9999
    requires LocalDateString(CivilFromDay(d1)) == LocalDateString(CivilFromDay(d2))
    ensures d1 == d2
  {
    LocalDateRoundTrip(CivilFromDay(d1));
    LocalDateRoundTrip(CivilFromDay(d2));
  }
}
