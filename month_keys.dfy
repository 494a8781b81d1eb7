/**
 * The month key `"YYYY-MM"` (the reduced-accuracy calendar-month form of
 * ISO 8601:2004, section 4.1.2.3 a)) that the pages build from a year and a
 * month, and the way the transactions page splits such a key back on `-` and
 * converts its two fields with JavaScript's number coercion.
 */
module MonthKeys {
  import opened Rows

  /** A year and a 1-based month as read from, or written into, a key. */
  datatype MonthRef = MonthRef(year: nat, month: nat)

  predicate IsDigit(c: char)
  {
    '0' <= c <= '9'
  }

  predicate AllDigits(s: string)
  {
    forall i :: 0 <= i < |s| ==> IsDigit(s[i])
  }

  function DigitChar(d: nat): (c: char)
    requires d < 10
    ensures IsDigit(c) && (c as int) - ('0' as int) == d
  {
    (('0' as int) + d) as char
  }

  /** `String(n)`: decimal digits, most significant first, no leading zeros. */
  function DecimalString(n: nat): (s: string)
    ensures |s| >= 1 && AllDigits(s)
    ensures s[0] == '0' ==> n == 0
    decreases n
  {
    if n < 10 then [DigitChar(n)] else DecimalString(n / 10) + [DigitChar(n % 10)]
  }

  /** `Number(s)` for a string of ASCII digits; the empty string converts to 0. */
  function DigitsValue(s: string): nat
    requires AllDigits(s)
  {
    if s == [] then 0
    else DigitsValue(s[..|s| - 1]) * 10 + ((s[|s| - 1] as int) - ('0' as int))
  }

  /** Converting the decimal string of a number back gives the number. */
  lemma {:induction false} DecimalRoundTrip(n: nat)
    ensures DigitsValue(DecimalString(n)) == n
    decreases n
  {
    var s := DecimalString(n);
    if n >= 10 {
      DecimalRoundTrip(n / 10);
      assert s[..|s| - 1] == DecimalString(n / 10);
    }
  }

  /** A year from 1000 to 9999 is written with exactly four digits. */
  lemma FourDigitYear(year: nat)
    requires 1000 <= year <= 9999
    ensures |DecimalString(year)| == 4
  {
    assert |DecimalString(year / 1000)| == 1;
    assert |DecimalString(year / 100)| == 2 by { assert (year / 100) / 10 == year / 1000; }
    assert |DecimalString(year / 10)| == 3 by { assert (year / 10) / 10 == year / 100; }
  }

  /** `s.padStart(2, '0')`: zeros are added in front until the string has two characters. */
  function PadStart2(s: string): (r: string)
    ensures |r| == if |s| < 2 then 2 else |s|
    ensures r[|r| - |s|..] == s
    ensures forall i :: 0 <= i < |r| - |s| ==> r[i] == '0'
  {
    if |s| == 0 then "00" else if |s| == 1 then "0" + s else s
  }

  /** The year field of a key for a four-digit year: four digits with the year's value. */
  lemma YearField(year: nat)
    requires 1000 <= year <= 9999
    ensures |DecimalString(year)| == 4 && AllDigits(DecimalString(year))
    ensures DigitsValue(DecimalString(year)) == year
  {
    FourDigitYear(year);
    DecimalRoundTrip(year);
  }

  /** The month field of a key for a month 1..12: two digits with the month's value. */
  lemma MonthField(month: nat)
    requires 1 <= month <= 12
    ensures |PadStart2(DecimalString(month))| == 2 && AllDigits(PadStart2(DecimalString(month)))
    ensures DigitsValue(PadStart2(DecimalString(month))) == month
  {
    var s := DecimalString(month);
    if month < 10 {
      var d := DigitChar(month);
      assert s == [d];
      assert PadStart2(s) == ['0', d];
      assert ['0', d][..1] == ['0'] && ['0'][..0] == [];
    } else {
      assert month / 10 == 1;
      assert DecimalString(1) == [DigitChar(1)];
      assert s == DecimalString(1) + [DigitChar(month % 10)];
      assert |s| == 2 && PadStart2(s) == s;
      assert s[..1] == [DigitChar(1)] && s[..1][..0] == [];
      assert DigitsValue(s[..1]) == 1;
      assert DigitsValue(s) == 10 + month % 10;
    }
  }

  /** The key of a month: the year, `-`, then the month padded to two digits. */
  function MonthKey(year: nat, month: nat): (k: string)
    ensures 1000 <= year <= 9999 && 1 <= month <= 12 ==>
      |k| == 7 && k[4] == '-' && AllDigits(k[..4]) && AllDigits(k[5..]) &&
      DigitsValue(k[..4]) == year && DigitsValue(k[5..]) == month
  {
    var y, m := DecimalString(year), PadStart2(DecimalString(month));
    if 1000 <= year <= 9999 && 1 <= month <= 12 then
      YearField(year);
      MonthField(month);
      assert (y + "-" + m)[..4] == y && (y + "-" + m)[5..] == m;
      y + "-" + m
    else
      y + "-" + m
  }

  /** Padding a month number with a leading zero does not change its value. */
  lemma PadValue(month: nat)
    ensures AllDigits(PadStart2(DecimalString(month)))
    ensures DigitsValue(PadStart2(DecimalString(month))) == month
  {
    var s := DecimalString(month);
    DecimalRoundTrip(month);
    if |s| == 1 {
      var p := PadStart2(s);
      assert p == ['0', s[0]];
      assert p[..1] == "0";
      assert s[..0] == [];
    }
  }

  /** Index of the first occurrence of `c` in `s`. */
  function FirstIndex(s: string, c: char): (i: nat)
    requires c in s
    ensures i < |s| && s[i] == c && c !in s[..i]
  {
    if s[0] == c then 0
    else
      var j := FirstIndex(s[1..], c);
      assert s[..j + 1] == [s[0]] + s[1..][..j];
      j + 1
  }

  /** `parts.join(sep)`: the pieces with one separator between neighbours. */
  function Join(parts: seq<string>, sep: char): string
    requires |parts| >= 1
  {
    if |parts| == 1 then parts[0] else parts[0] + [sep] + Join(parts[1..], sep)
  }

  /** `s.split(sep)`: the pieces between separators, in order; always at least one. */
  function Split(s: string, sep: char): (parts: seq<string>)
    ensures |parts| >= 1
    ensures forall i :: 0 <= i < |parts| ==> sep !in parts[i]
    ensures Join(parts, sep) == s
    decreases |s|
  {
    if sep !in s then [s]
    else
      var i := FirstIndex(s, sep);
      var rest := Split(s[i + 1..], sep);
      assert s == s[..i] + [sep] + s[i + 1..];
      assert ([s[..i]] + rest)[1..] == rest;
      [s[..i]] + rest
  }

  /** The text of `s` up to its first `sep`, or all of `s` when it has none. */
  function FieldBefore(s: string, sep: char): (f: string)
    ensures sep !in f && |f| <= |s| && s[..|f|] == f
    ensures sep in s <==> |f| < |s|
    ensures |f| < |s| ==> s[|f|] == sep
  {
    if sep in s then s[..FirstIndex(s, sep)] else s
  }

  /** The first piece of a split is the text before the first separator. */
  lemma SplitFirst(s: string, sep: char)
    ensures Split(s, sep)[0] == FieldBefore(s, sep)
  {
  }

  /** A string with a separator splits into at least two pieces, the second being the text after it up to the next one. */
  lemma SplitSecond(s: string, sep: char)
    requires sep in s
    ensures var f := FieldBefore(s, sep);
            |Split(s, sep)| >= 2 && Split(s, sep)[1] == FieldBefore(s[|f| + 1..], sep)
  {
    SplitFirst(s[FirstIndex(s, sep) + 1..], sep);
  }

  /** Joining two separator-free pieces with the separator and splitting again gives them back. */
  lemma SplitJoin(a: string, b: string, sep: char)
    requires sep !in a && sep !in b
    ensures Split(a + [sep] + b, sep) == [a, b]
  {
    var s := a + [sep] + b;
    assert s[|a|] == sep;
    var i := FirstIndex(s, sep);
    assert s[..|a|] == a;
    assert i == |a|;
    assert s[..i] == a;
    assert s[i + 1..] == b;
  }

  /**
   * `const [year, month] = key.split('-')` followed by the number coercions that
   * `new Date(year, month - 1, 1)` applies. A key without a `-` leaves `month`
   * undefined and a field with any non-digit character converts to NaN; either
   * way the date is invalid, and `None` stands for that failure. Pieces after
   * the second are ignored.
   */
  function ParseMonthKey(key: string): (r: Option<MonthRef>)
    ensures '-' !in key ==> r.None?
    ensures '-' in key ==>
      var y := FieldBefore(key, '-');
      var m := FieldBefore(key[|y| + 1..], '-');
      && (r.Some? <==> AllDigits(y) && AllDigits(m))
      && (r.Some? ==> r.value == MonthRef(DigitsValue(y), DigitsValue(m)))
  {
    var parts := Split(key, '-');
    if |parts| < 2 then None
    else
      SplitFirst(key, '-');
      SplitSecond(key, '-');
      if !AllDigits(parts[0]) || !AllDigits(parts[1]) then None
      else Some(MonthRef(DigitsValue(parts[0]), DigitsValue(parts[1])))
  }

  /** Splitting a month key recovers the year and month it was built from. */
  lemma MonthKeyRoundTrip(year: nat, month: nat)
    ensures ParseMonthKey(MonthKey(year, month)) == Some(MonthRef(year, month))
  {
    var y, m := DecimalString(year), PadStart2(DecimalString(month));
    PadValue(month);
    DecimalRoundTrip(year);
    assert '-' !in y && '-' !in m;
    SplitJoin(y, m, '-');
    assert MonthKey(year, month) == y + ['-'] + m;
  }
}
