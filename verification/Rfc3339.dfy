/** RFC 3339 rendering of instants: its exact range, a parser, and its order (RFC 3339, sections 5.1, 5.6 and 5.7). */
module Rfc3339 {
  import opened Wrappers
  import opened Text
  import opened Calendar

  // ---- Rendering ----

  /** Decimal digits with leading zeros up to a width. */
  function Padded(n: nat, width: nat): string {
    var digits := Digits(n);
    seq(if |digits| < width then width - |digits| else 0, _ => '0') + digits
  }

  function DateText(d: Date): string
    requires d.year >= 0 && d.month >= 0 && d.day >= 0
  {
    Padded(d.year, 4) + ['-'] + (Padded(d.month, 2) + ['-'] + Padded(d.day, 2))
  }

  function TimeText(c: Civil): string
    requires c.hour >= 0 && c.minute >= 0 && c.second >= 0
  {
    Padded(c.hour, 2) + [':'] + (Padded(c.minute, 2) + [':'] + (Padded(c.second, 2) + ['Z']))
  }

  function Render(secs: int): (r: Option<string>)
  {
    var c := UnixToCivil(secs);
    UnixRoundTrip(secs);
    if 0 <= c.date.year <= 9999 then Some(DateText(c.date) + ['T'] + TimeText(c)) else None
  }

  // ---- Parsing, the format's own reading ----

  predicate Shaped(s: string) {
    && |s| == 20 && s[4] == '-' && s[7] == '-' && s[10] == 'T' && s[13] == ':' && s[16] == ':' && s[19] == 'Z'
    && AllDigits(s[0..4]) && AllDigits(s[5..7]) && AllDigits(s[8..10])
    && AllDigits(s[11..13]) && AllDigits(s[14..16]) && AllDigits(s[17..19])
  }

  function ReadFields(s: string): Civil
    requires Shaped(s)
  {
    Civil(Date(Value(s[0..4]), Value(s[5..7]), Value(s[8..10])), Value(s[11..13]), Value(s[14..16]), Value(s[17..19]))
  }

  function Parse(s: string): Option<int> {
    if Shaped(s) && ValidCivil(ReadFields(s)) then Some(CivilToUnix(ReadFields(s))) else None
  }

  // ---- Digit strings of one length ----

  lemma {:induction false} ValueBounded(s: string)
    requires AllDigits(s)
    ensures Value(s) < Pow10(|s|)
  {
    if s != [] {
      ValueBounded(s[..|s| - 1]);
    }
  }

  lemma ValueOfLast(s: string, c: char)
    requires AllDigits(s) && IsDigit(c)
    ensures AllDigits(s + [c]) && Value(s + [c]) == 10 * Value(s) + DigitValue(c)
  {
    assert (s + [c])[..|s|] == s;
  }

  lemma {:induction false} ValueOfHead(c: char, s: string)
    requires IsDigit(c) && AllDigits(s)
    ensures AllDigits([c] + s) && Value([c] + s) == DigitValue(c) * Pow10(|s|) + Value(s)
  {
    hide Value, DigitValue;
    EmptyValue();
    if s == [] {
      assert [c] + s == [] + [c];
      ValueOfLast([], c);
    } else {
      var init, last := s[..|s| - 1], s[|s| - 1];
      ValueOfHead(c, init);
      ValueOfLast([c] + init, last);
      ValueOfLast(init, last);
      assert [c] + s == [c] + init + [last] && s == init + [last];
      TenTimes(DigitValue(c), Pow10(|init|));
    }
  }

  lemma EmptyValue()
    ensures Value([]) == 0
  {
  }

  lemma TenTimes(d: nat, p: nat)
    ensures d * (10 * p) == 10 * (d * p)
  {
  }

  /** Equally long digit strings sort as the numbers they spell. */
  lemma {:induction false} DigitsSortAsNumbers(a: string, b: string)
    requires AllDigits(a) && AllDigits(b) && |a| == |b|
    ensures LexLess(a, b) <==> Value(a) < Value(b)
    ensures a == b <==> Value(a) == Value(b)
  {
    if a != [] {
      hide Value, Pow10;
      var x, y := a[1..], b[1..];
      DigitsSortAsNumbers(x, y);
      SpelledFromHead(a);
      SpelledFromHead(b);
      HeadDecides(DigitValue(a[0]), Value(x), DigitValue(b[0]), Value(y), Pow10(|x|));
      HeadDecides(DigitValue(b[0]), Value(y), DigitValue(a[0]), Value(x), Pow10(|x|));
    }
  }

  lemma SpelledFromHead(s: string)
    requires AllDigits(s) && s != []
    ensures AllDigits(s[1..]) && Value(s) == DigitValue(s[0]) * Pow10(|s[1..]|) + Value(s[1..])
    ensures Value(s[1..]) < Pow10(|s[1..]|)
    ensures s == [s[0]] + s[1..]
  {
    hide Value, Pow10;
    assert s == [s[0]] + s[1..];
    ValueOfHead(s[0], s[1..]);
    ValueBounded(s[1..]);
  }

  lemma HeadDecides(a: nat, x: nat, b: nat, y: nat, p: nat)
    requires x < p && y < p
    ensures a * p + x < b * p + y <==> a < b || (a == b && x < y)
  {
    if a < b {
      assert (a + 1) * p <= b * p;
    } else if b < a {
      assert (b + 1) * p <= a * p;
    }
  }

  // ---- Padded fields ----

  lemma {:induction false} ZerosAddNothing(k: nat, s: string)
    requires AllDigits(s)
    ensures AllDigits(seq(k, _ => '0') + s) && Value(seq(k, _ => '0') + s) == Value(s)
  {
    if k == 0 {
      assert seq(k, _ => '0') + s == s;
    } else {
      ZerosAddNothing(k - 1, s);
      ValueOfHead('0', seq(k - 1, _ => '0') + s);
      assert seq(k, _ => '0') + s == ['0'] + (seq(k - 1, _ => '0') + s);
    }
  }

  lemma PaddedField(n: nat, width: nat)
    requires width > 0 && n < Pow10(width)
    ensures |Padded(n, width)| == width && AllDigits(Padded(n, width)) && Value(Padded(n, width)) == n
  {
    DigitsLength(n, width);
    ValueOfDigits(n);
    ZerosAddNothing(width - |Digits(n)|, Digits(n));
  }

  lemma SmallFields(c: Civil)
    requires ValidCivil(c) && 0 <= c.date.year <= 9999
    ensures c.date.year < Pow10(4) && c.date.month < Pow10(2) && c.date.day < Pow10(2)
    ensures c.hour < Pow10(2) && c.minute < Pow10(2) && c.second < Pow10(2)
  {
    hide IsLeap;
    assert Pow10(2) == 100;
  }

  lemma PaddedOrder(m: nat, n: nat, width: nat)
    requires width > 0 && m < Pow10(width) && n < Pow10(width)
    ensures |Padded(m, width)| == |Padded(n, width)|
    ensures LexLess(Padded(m, width), Padded(n, width)) <==> m < n
    ensures Padded(m, width) == Padded(n, width) <==> m == n
  {
    hide Padded, Value, LexLess;
    PaddedField(m, width);
    PaddedField(n, width);
    DigitsSortAsNumbers(Padded(m, width), Padded(n, width));
  }

  lemma {:induction false} FirstFieldDecides(a: string, x: string, b: string, y: string, sep: char)
    requires |a| == |b|
    ensures LexLess(a + [sep] + x, b + [sep] + y) <==> LexLess(a, b) || (a == b && LexLess(x, y))
  {
    if a == [] {
      assert (a + [sep] + x)[1..] == x && (b + [sep] + y)[1..] == y;
    } else {
      FirstFieldDecides(a[1..], x, b[1..], y, sep);
      assert (a + [sep] + x)[1..] == a[1..] + [sep] + x;
      assert (b + [sep] + y)[1..] == b[1..] + [sep] + y;
      assert a == [a[0]] + a[1..] && b == [b[0]] + b[1..];
    }
  }

  // ---- Order ----

  ghost predicate Writable(c: Civil) {
    ValidCivil(c) && 0 <= c.date.year <= 9999
  }

  lemma DateTextOrder(a: Civil, b: Civil)
    requires Writable(a) && Writable(b)
    ensures |DateText(a.date)| == |DateText(b.date)|
    ensures LexLess(DateText(a.date), DateText(b.date)) <==> DateBefore(a.date, b.date)
    ensures DateText(a.date) == DateText(b.date) ==> a.date == b.date
  {
    hide Padded, LexLess, IsLeap, Pow10;
    var d, e := a.date, b.date;
    SmallFields(a);
    SmallFields(b);
    PaddedOrder(d.year, e.year, 4);
    PaddedOrder(d.month, e.month, 2);
    PaddedOrder(d.day, e.day, 2);
    var x, y := Padded(d.month, 2) + ['-'] + Padded(d.day, 2), Padded(e.month, 2) + ['-'] + Padded(e.day, 2);
    FirstFieldDecides(Padded(d.year, 4), x, Padded(e.year, 4), y, '-');
    FirstFieldDecides(Padded(d.month, 2), Padded(d.day, 2), Padded(e.month, 2), Padded(e.day, 2), '-');
    LexIrreflexive(DateText(d));
    if DateText(d) == DateText(e) {
      LexIrreflexive(DateText(e));
      DateTextSame(d, e);
    }
  }

  lemma DateTextSame(d: Date, e: Date)
    requires d.year >= 0 && d.month >= 0 && d.day >= 0 && e.year >= 0 && e.month >= 0 && e.day >= 0
    requires DateText(d) == DateText(e)
    requires |Padded(d.year, 4)| == |Padded(e.year, 4)| && |Padded(d.month, 2)| == |Padded(e.month, 2)|
    ensures Padded(d.year, 4) == Padded(e.year, 4) && Padded(d.month, 2) == Padded(e.month, 2)
      && Padded(d.day, 2) == Padded(e.day, 2)
  {
    hide Padded;
    SameFirstField(Padded(d.year, 4), Padded(d.month, 2) + ['-'] + Padded(d.day, 2),
                   Padded(e.year, 4), Padded(e.month, 2) + ['-'] + Padded(e.day, 2), '-');
    SameFirstField(Padded(d.month, 2), Padded(d.day, 2), Padded(e.month, 2), Padded(e.day, 2), '-');
  }

  lemma SameFirstField(a: string, x: string, b: string, y: string, sep: char)
    requires |a| == |b| && a + [sep] + x == b + [sep] + y
    ensures a == b && x == y
  {
    var s := a + [sep] + x;
    assert a == s[..|a|] && b == s[..|b|] && x == s[|a| + 1..] && y == s[|b| + 1..];
  }

  lemma TimeTextOrder(a: Civil, b: Civil)
    requires Writable(a) && Writable(b)
    ensures LexLess(TimeText(a), TimeText(b)) <==>
            a.hour < b.hour || (a.hour == b.hour && (a.minute < b.minute
              || (a.minute == b.minute && a.second < b.second)))
  {
    hide Padded, LexLess, IsLeap, Pow10;
    SmallFields(a);
    SmallFields(b);
    PaddedOrder(a.hour, b.hour, 2);
    PaddedOrder(a.minute, b.minute, 2);
    PaddedOrder(a.second, b.second, 2);
    var p, q := Padded(a.second, 2), Padded(b.second, 2);
    var x, y := Padded(a.minute, 2) + [':'] + (p + ['Z']), Padded(b.minute, 2) + [':'] + (q + ['Z']);
    FirstFieldDecides(Padded(a.hour, 2), x, Padded(b.hour, 2), y, ':');
    FirstFieldDecides(Padded(a.minute, 2), p + ['Z'], Padded(b.minute, 2), q + ['Z'], ':');
    FirstFieldDecides(p, [], q, [], 'Z');
    assert p + ['Z'] + [] == p + ['Z'] && q + ['Z'] + [] == q + ['Z'];
    LexIrreflexive([]);
  }

  // ---- Range ----

  const YEAR_ZERO := -62_167_219_200
  const YEAR_TEN_THOUSAND := 253_402_300_800

  predicate Representable(secs: int) {
    YEAR_ZERO <= secs < YEAR_TEN_THOUSAND
  }

  lemma YearStart(y: int)
    ensures ValidCivil(Civil(Date(y, 1, 1), 0, 0, 0))
    ensures CivilToUnix(Civil(Date(y, 1, 1), 0, 0, 0)) == 86_400 * (DaysBeforeYear(y) - 719_528)
  {
  }

  lemma YearFrom(secs: int, y: int)
    ensures UnixToCivil(secs).date.year >= y <==> secs >= 86_400 * (DaysBeforeYear(y) - 719_528)
  {
    hide UnixToCivil, CivilToUnix, DaysBeforeYear, IsLeap;
    var start := Civil(Date(y, 1, 1), 0, 0, 0);
    YearStart(y);
    CivilRoundTrip(start);
    UnixRoundTrip(secs);
    UnixMonotone(secs, CivilToUnix(start));
  }

  /** Rendering succeeds exactly on the instants of years 0000 to 9999. */
  lemma RenderIff(secs: int)
    ensures Render(secs).Some? <==> Representable(secs)
  {
    hide UnixToCivil, DateText, TimeText;
    YearFrom(secs, 0);
    YearFrom(secs, 10_000);
    assert DaysBeforeYear(0) == 0 && DaysBeforeYear(10_000) == 3_652_425;
  }

  /** Rendered timestamps sort as text exactly as their instants do (RFC 3339, section 5.1). */
  lemma TextOrderIsTimeOrder(a: int, b: int)
    requires Representable(a) && Representable(b)
    ensures Render(a).Some? && Render(b).Some?
    ensures LexLess(Render(a).value, Render(b).value) <==> a < b
  {
    hide DateText, TimeText, LexLess, UnixToCivil, DateBefore, MonthLength;
    RenderIff(a);
    RenderIff(b);
    UnixRoundTrip(a);
    UnixRoundTrip(b);
    var c, d := UnixToCivil(a), UnixToCivil(b);
    DateTextOrder(c, d);
    TimeTextOrder(c, d);
    FirstFieldDecides(DateText(c.date), TimeText(c), DateText(d.date), TimeText(d), 'T');
    UnixMonotone(a, b);
  }

  // ---- Round trips ----

  lemma RenderedShape(c: Civil)
    requires Writable(c)
    ensures
      var s := DateText(c.date) + ['T'] + TimeText(c);
      Shaped(s) && ReadFields(s) == c
  {
    hide Padded, Value, Pow10, IsLeap;
    SmallFields(c);
    PaddedField(c.date.year, 4);
    PaddedField(c.date.month, 2);
    PaddedField(c.date.day, 2);
    PaddedField(c.hour, 2);
    PaddedField(c.minute, 2);
    PaddedField(c.second, 2);
    var s := DateText(c.date) + ['T'] + TimeText(c);
    assert s[0..4] == Padded(c.date.year, 4);
    assert s[5..7] == Padded(c.date.month, 2);
    assert s[8..10] == Padded(c.date.day, 2);
    assert s[11..13] == Padded(c.hour, 2);
    assert s[14..16] == Padded(c.minute, 2);
    assert s[17..19] == Padded(c.second, 2);
  }

  /** What is rendered is twenty characters of the format and parses back to its instant. */
  lemma RenderedParses(secs: int)
    requires Representable(secs)
    ensures Render(secs).Some? && |Render(secs).value| == 20 && Parse(Render(secs).value) == Some(secs)
  {
    hide UnixToCivil, DateText, TimeText, CivilToUnix, ValidDate, ReadFields;
    RenderIff(secs);
    UnixRoundTrip(secs);
    RenderedShape(UnixToCivil(secs));
  }

  lemma SpelledField(s: string)
    requires AllDigits(s) && s != []
    ensures Padded(Value(s), |s|) == s
  {
    hide Padded, Value, LexLess;
    ValueBounded(s);
    PaddedField(Value(s), |s|);
    DigitsSortAsNumbers(Padded(Value(s), |s|), s);
  }

  lemma ShapedRenders(s: string)
    requires Shaped(s) && ValidCivil(ReadFields(s))
    ensures Writable(ReadFields(s)) && DateText(ReadFields(s).date) + ['T'] + TimeText(ReadFields(s)) == s
  {
    hide Padded, Value, IsLeap;
    ValueBounded(s[0..4]);
    SpelledField(s[0..4]);
    SpelledField(s[5..7]);
    SpelledField(s[8..10]);
    SpelledField(s[11..13]);
    SpelledField(s[14..16]);
    SpelledField(s[17..19]);
    assert Pow10(4) == 10_000;
  }

  /** Everything the format's grammar and date restrictions admit in UTC seconds is what some instant renders to. */
  lemma ParsedRenders(s: string)
    requires Parse(s).Some?
    ensures Render(Parse(s).value) == Some(s)
  {
    hide UnixToCivil, DateText, TimeText, CivilToUnix, ReadFields, Shaped;
    ShapedRenders(s);
    CivilRoundTrip(ReadFields(s));
  }
}
