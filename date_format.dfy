/** The date formatter a JSON decoder owns: a Gregorian formatter whose
    format is the literal pattern yyyy-MM-dd'T'HH:mm:ss'Z'. Parsing yields
    the calendar fields of the timestamp; the conversion to an absolute
    instant (calendar arithmetic, time zone) is not part of this model. */
module DateFormat {
  import opened Wrappers

  /** The fields a timestamp in the fixed format carries. */
  datatype Date = Date(year: int, month: int, day: int, hour: int, minute: int, second: int)

  /** Field ranges the formatter accepts: a four-digit year, a month, a day
      number, a 24-hour clock. */
  predicate ValidDate(d: Date) {
    && 0 <= d.year <= 9999
    && 1 <= d.month <= 12
    && 1 <= d.day <= 31
    && 0 <= d.hour <= 23
    && 0 <= d.minute <= 59
    && 0 <= d.second <= 59
  }

  predicate IsDigit(c: char) {
    '0' <= c <= '9'
  }

  function DigitValue(c: char): (d: nat)
    requires IsDigit(c)
    ensures d < 10
  {
    c as int - '0' as int
  }

  function DigitChar(d: nat): (c: char)
    requires d < 10
    ensures IsDigit(c) && DigitValue(c) == d
  {
    ('0' as int + d) as char
  }

  lemma DigitCharOfValue(c: char)
    requires IsDigit(c)
    ensures DigitChar(DigitValue(c)) == c
  {
  }

  /** Positions of the pattern that hold a digit (every other position holds
      one of the literal separators '-', 'T', ':' or 'Z'). */
  predicate IsDigitPosition(i: int) {
    i in {0, 1, 2, 3, 5, 6, 8, 9, 11, 12, 14, 15, 17, 18}
  }

  /** s has the shape of the pattern yyyy-MM-dd'T'HH:mm:ss'Z'. */
  predicate Shaped(s: string) {
    && |s| == 20
    && (forall i :: 0 <= i < 20 && IsDigitPosition(i) ==> IsDigit(s[i]))
    && s[4] == '-' && s[7] == '-' && s[10] == 'T'
    && s[13] == ':' && s[16] == ':' && s[19] == 'Z'
  }

  function Two(s: string, i: nat): (n: nat)
    requires i + 2 <= |s| && IsDigit(s[i]) && IsDigit(s[i + 1])
    ensures n < 100
  {
    10 * DigitValue(s[i]) + DigitValue(s[i + 1])
  }

  function Four(s: string, i: nat): (n: nat)
    requires i + 4 <= |s| && IsDigit(s[i]) && IsDigit(s[i + 1]) && IsDigit(s[i + 2]) && IsDigit(s[i + 3])
    ensures n < 10000
  {
    100 * Two(s, i) + Two(s, i + 2)
  }

  function Fields(s: string): (d: Date)
    requires Shaped(s)
  {
    assert IsDigitPosition(0) && IsDigitPosition(1) && IsDigitPosition(2) && IsDigitPosition(3);
    assert IsDigitPosition(5) && IsDigitPosition(6) && IsDigitPosition(8) && IsDigitPosition(9);
    assert IsDigitPosition(11) && IsDigitPosition(12) && IsDigitPosition(14) && IsDigitPosition(15);
    assert IsDigitPosition(17) && IsDigitPosition(18);
    Date(Four(s, 0), Two(s, 5), Two(s, 8), Two(s, 11), Two(s, 14), Two(s, 17))
  }

  /** dateFromString: the timestamp a string denotes, or None when the string
      does not follow the pattern or a field is out of range. */
  function ParseDate(s: string): (r: Option<Date>)
    ensures r.Some? ==> Shaped(s) && ValidDate(r.value)
  {
    if Shaped(s) && ValidDate(Fields(s)) then Some(Fields(s)) else None
  }

  function PadTwo(n: nat): (s: string)
    requires n < 100
    ensures |s| == 2 && IsDigit(s[0]) && IsDigit(s[1]) && Two(s, 0) == n
  {
    [DigitChar(n / 10), DigitChar(n % 10)]
  }

  function PadFour(n: nat): (s: string)
    requires n < 10000
    ensures |s| == 4 && forall i :: 0 <= i < 4 ==> IsDigit(s[i])
    ensures Four(s, 0) == n
  {
    var s := PadTwo(n / 100) + PadTwo(n % 100);
    assert Two(s, 0) == n / 100 && Two(s, 2) == n % 100;
    s
  }

  /** The string the formatter writes for a date. */
  function FormatDate(d: Date): (s: string)
    requires ValidDate(d)
    ensures Shaped(s)
  {
    var s := PadFour(d.year) + "-" + PadTwo(d.month) + "-" + PadTwo(d.day) + "T"
             + PadTwo(d.hour) + ":" + PadTwo(d.minute) + ":" + PadTwo(d.second) + "Z";
    JoinedShaped(PadFour(d.year), PadTwo(d.month), PadTwo(d.day), PadTwo(d.hour), PadTwo(d.minute), PadTwo(d.second));
    s
  }

  predicate AllDigits(t: string) {
    forall i :: 0 <= i < |t| ==> IsDigit(t[i])
  }

  lemma JoinedShaped(y: string, mo: string, d: string, h: string, mi: string, se: string)
    requires |y| == 4 && |mo| == 2 && |d| == 2 && |h| == 2 && |mi| == 2 && |se| == 2
    requires AllDigits(y) && AllDigits(mo) && AllDigits(d) && AllDigits(h) && AllDigits(mi) && AllDigits(se)
    ensures Shaped(y + "-" + mo + "-" + d + "T" + h + ":" + mi + ":" + se + "Z")
  {
    var s := y + "-" + mo + "-" + d + "T" + h + ":" + mi + ":" + se + "Z";
    forall i | 0 <= i < 20 && IsDigitPosition(i) ensures IsDigit(s[i]) {
      if i < 4 { assert s[i] == y[i]; }
      else if i < 7 { assert s[i] == mo[i - 5]; }
      else if i < 10 { assert s[i] == d[i - 8]; }
      else if i < 13 { assert s[i] == h[i - 11]; }
      else if i < 16 { assert s[i] == mi[i - 14]; }
      else { assert s[i] == se[i - 17]; }
    }
  }

  /** Every valid date is read back from the text the formatter writes. */
  lemma ParseFormat(d: Date)
    requires ValidDate(d)
    ensures ParseDate(FormatDate(d)) == Some(d)
  {
    var s := FormatDate(d);
    assert s[0..4] == PadFour(d.year);
    assert s[5..7] == PadTwo(d.month);
    assert s[8..10] == PadTwo(d.day);
    assert s[11..13] == PadTwo(d.hour);
    assert s[14..16] == PadTwo(d.minute);
    assert s[17..19] == PadTwo(d.second);
    assert Fields(s) == d;
  }

  lemma TwoOfSlice(s: string, i: nat)
    requires i + 2 <= |s| && IsDigit(s[i]) && IsDigit(s[i + 1])
    ensures PadTwo(Two(s, i)) == s[i..i + 2]
  {
    var a, b := DigitValue(s[i]), DigitValue(s[i + 1]);
    assert (10 * a + b) / 10 == a && (10 * a + b) % 10 == b;
    DigitCharOfValue(s[i]);
    DigitCharOfValue(s[i + 1]);
  }

  lemma FourOfSlice(s: string, i: nat)
    requires i + 4 <= |s| && IsDigit(s[i]) && IsDigit(s[i + 1]) && IsDigit(s[i + 2]) && IsDigit(s[i + 3])
    ensures PadFour(Four(s, i)) == s[i..i + 4]
  {
    TwoOfSlice(s, i);
    TwoOfSlice(s, i + 2);
    var n := Four(s, i);
    assert n / 100 == Two(s, i) && n % 100 == Two(s, i + 2);
    assert s[i..i + 4] == s[i..i + 2] + s[i + 2..i + 4];
  }

  /** A string ParseDate accepts is exactly the text FormatDate writes for
      the date it denotes, so in this model no two accepted strings denote
      the same date (only the zero-padded 20-character form is accepted). */
  lemma FormatParse(s: string)
    requires ParseDate(s).Some?
    ensures FormatDate(ParseDate(s).value) == s
  {
    assert IsDigitPosition(0) && IsDigitPosition(1) && IsDigitPosition(2) && IsDigitPosition(3);
    assert IsDigitPosition(5) && IsDigitPosition(6) && IsDigitPosition(8) && IsDigitPosition(9);
    assert IsDigitPosition(11) && IsDigitPosition(12) && IsDigitPosition(14) && IsDigitPosition(15);
    assert IsDigitPosition(17) && IsDigitPosition(18);
    FourOfSlice(s, 0);
    TwoOfSlice(s, 5);
    TwoOfSlice(s, 8);
    TwoOfSlice(s, 11);
    TwoOfSlice(s, 14);
    TwoOfSlice(s, 17);
    SplitShaped(s);
  }

  lemma SplitShaped(s: string)
    requires Shaped(s)
    ensures s == s[0..4] + "-" + s[5..7] + "-" + s[8..10] + "T" + s[11..13] + ":" + s[14..16] + ":" + s[17..19] + "Z"
  {
    var t := s[0..4] + "-" + s[5..7] + "-" + s[8..10] + "T" + s[11..13] + ":" + s[14..16] + ":" + s[17..19] + "Z";
    assert |t| == 20;
    forall i | 0 <= i < 20 ensures t[i] == s[i] {
    }
  }
}
