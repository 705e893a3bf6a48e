/**
 * The calendar-day key of the statistics pipeline: the (day, month, year)
 * triple that `$dayOfMonth`, `$month` and `$year` extract from an order's
 * date, and the `day-month-year` string that the `$project` stage builds from
 * it with `$substr` and `$concat`.
 */
module Calendar {

  /** The `_id` of one `$group` bucket. */
  datatype Day = Day(day: nat, month: nat, year: nat)

  /** The days a stored order can fall on (four-digit years). */
  predicate ValidDay(d: Day) {
    1 <= d.day <= 31 && 1 <= d.month <= 12 && 1000 <= d.year <= 9999
  }

  predicate IsDigit(c: char) {
    '0' <= c <= '9'
  }

  predicate AllDigits(s: string) {
    forall i :: 0 <= i < |s| ==> IsDigit(s[i])
  }

  function DigitChar(n: nat): (c: char)
    requires n < 10
    ensures IsDigit(c) && (c as int) - ('0' as int) == n
  {
    ('0' as int + n) as char
  }

  function DigitValue(c: char): int {
    (c as int) - ('0' as int)
  }

  /**
   * The decimal rendering of a number, as `$substr` converts an integer to a
   * string: digits only, no sign and no leading zero.
   */
  function Decimal(n: nat): (s: string)
    ensures |s| >= 1 && AllDigits(s)
    ensures s[0] == '0' ==> n == 0
    decreases n
  {
    if n < 10 then [DigitChar(n)] else Decimal(n / 10) + [DigitChar(n % 10)]
  }

  /** Reads a string of digits back as a number (the inverse of Decimal). */
  function ParseDecimal(s: string): int
    decreases |s|
  {
    if |s| == 0 then 0 else ParseDecimal(s[..|s| - 1]) * 10 + DigitValue(s[|s| - 1])
  }

  function Pow10(k: nat): (p: nat)
    ensures p >= 1
  {
    if k == 0 then 1 else 10 * Pow10(k - 1)
  }

  /**
   * `$substr: [s, start, length]`: at most `length` characters of `s` from
   * index `start`; shorter when `s` ends first, and never padded.
   */
  function Substr(s: string, start: nat, length: nat): (r: string)
    ensures start >= |s| ==> r == []
    ensures start < |s| ==>
              |r| == (if |s| - start < length then |s| - start else length) && r == s[start..start + |r|]
  {
    if start >= |s| then []
    else if |s| - start < length then s[start..]
    else s[start..start + length]
  }

  /** The `date` field of a statistics record: `day-month-year`, each part cut, not padded. */
  function DateKey(d: Day): (k: string)
    ensures 5 <= |k| <= 10
  {
    Substr(Decimal(d.day), 0, 2) + "-" + Substr(Decimal(d.month), 0, 2) + "-" + Substr(Decimal(d.year), 0, 4)
  }

  // ---------------------------------------------------------------------------
  // Decimal rendering
  // ---------------------------------------------------------------------------

  /** Parsing the rendering of a number gives the number back. */
  lemma {:induction false} DecimalRoundTrip(n: nat)
    ensures ParseDecimal(Decimal(n)) == n
    decreases n
  {
    if n >= 10 {
      var s := Decimal(n / 10) + [DigitChar(n % 10)];
      assert s[..|s| - 1] == Decimal(n / 10);
      DecimalRoundTrip(n / 10);
    }
  }

  /** Different numbers render differently. */
  lemma DecimalInjective(m: nat, n: nat)
    ensures Decimal(m) == Decimal(n) <==> m == n
  {
    DecimalRoundTrip(m);
    DecimalRoundTrip(n);
  }

  /** A number below 10^k renders in at most k characters. */
  lemma {:induction false} DecimalWidth(n: nat, k: nat)
    requires 1 <= k && n < Pow10(k)
    ensures |Decimal(n)| <= k
    decreases n
  {
    if n >= 10 {
      assert n / 10 < Pow10(k - 1);
      DecimalWidth(n / 10, k - 1);
    }
  }

  // ---------------------------------------------------------------------------
  // The date key
  // ---------------------------------------------------------------------------

  /**
   * On a valid day the `$substr` cuts remove nothing: the key is the plain,
   * unpadded rendering of the three numbers (day 1 gives "1", not "01").
   */
  lemma DateKeyUnpadded(d: Day)
    requires ValidDay(d)
    ensures DateKey(d) == Decimal(d.day) + "-" + Decimal(d.month) + "-" + Decimal(d.year)
  {
    assert Pow10(2) == 100 && Pow10(4) == 10000;
    DecimalWidth(d.day, 2);
    DecimalWidth(d.month, 2);
    DecimalWidth(d.year, 4);
    assert Decimal(d.day)[0..|Decimal(d.day)|] == Decimal(d.day);
    assert Decimal(d.month)[0..|Decimal(d.month)|] == Decimal(d.month);
    assert Decimal(d.year)[0..|Decimal(d.year)|] == Decimal(d.year);
  }

  /** Two strings free of `sep` glued to the rest with `sep` can be told apart. */
  lemma SplitAtSeparator(a: string, r: string, b: string, q: string, sep: char)
    requires sep !in a && sep !in b
    requires a + [sep] + r == b + [sep] + q
    ensures a == b && r == q
  {
    var x := a + [sep] + r;
    var y := b + [sep] + q;
    assert |a| == |b| by {
      assert x[|a|] == sep && sep !in b;
      assert y[|b|] == sep && sep !in a;
    }
    assert a == x[..|a|] && b == y[..|b|];
    assert r == x[|a| + 1..] && q == y[|b| + 1..];
  }

  lemma DigitsHaveNoDash(s: string)
    requires AllDigits(s)
    ensures '-' !in s
  {
  }

  /** `a-b-c` with dash-free `a` and `b` determines all three parts. */
  lemma DashJoinInjective(a: string, b: string, c: string, a': string, b': string, c': string)
    requires '-' !in a && '-' !in b && '-' !in a' && '-' !in b'
    requires a + "-" + b + "-" + c == a' + "-" + b' + "-" + c'
    ensures a == a' && b == b' && c == c'
  {
    assert a + "-" + b + "-" + c == a + ['-'] + (b + "-" + c);
    assert a' + "-" + b' + "-" + c' == a' + ['-'] + (b' + "-" + c');
    SplitAtSeparator(a, b + "-" + c, a', b' + "-" + c', '-');
    SplitAtSeparator(b, c, b', c', '-');
  }

  /**
   * On valid days the key is injective, so the unique index on the `date`
   * field of the statistics collection is never violated by distinct days.
   */
  lemma DateKeyInjective(d1: Day, d2: Day)
    requires ValidDay(d1) && ValidDay(d2)
    ensures DateKey(d1) == DateKey(d2) <==> d1 == d2
  {
    if DateKey(d1) == DateKey(d2) {
      DateKeyUnpadded(d1);
      DateKeyUnpadded(d2);
      DigitsHaveNoDash(Decimal(d1.day));
      DigitsHaveNoDash(Decimal(d2.day));
      DigitsHaveNoDash(Decimal(d1.month));
      DigitsHaveNoDash(Decimal(d2.month));
      DashJoinInjective(Decimal(d1.day), Decimal(d1.month), Decimal(d1.year),
                        Decimal(d2.day), Decimal(d2.month), Decimal(d2.year));
      DecimalInjective(d1.day, d2.day);
      DecimalInjective(d1.month, d2.month);
      DecimalInjective(d1.year, d2.year);
    }
  }

  /** The first of the month renders without zero-padding. */
  lemma DateKeyExample()
    ensures DateKey(Day(1, 2, 2020)) == "1-2-2020"
  {
    DateKeyUnpadded(Day(1, 2, 2020));
    assert Decimal(2020) == Decimal(202) + ['0'];
    assert Decimal(202) == Decimal(20) + ['2'];
    assert Decimal(20) == Decimal(2) + ['0'];
  }

  /**
   * Beyond four-digit years the `$substr` cut makes different days share a
   * key: the year bound of ValidDay is what DateKeyInjective needs.
   */
  lemma FiveDigitYearsCollide()
    ensures Day(1, 1, 10000) != Day(1, 1, 10001)
    ensures DateKey(Day(1, 1, 10000)) == DateKey(Day(1, 1, 10001))
  {
    assert Decimal(10000) == Decimal(1000) + ['0'];
    assert Decimal(10001) == Decimal(1000) + ['1'];
    assert Decimal(1000) == Decimal(100) + ['0'];
    assert Decimal(100) == Decimal(10) + ['0'];
    assert Decimal(10) == Decimal(1) + ['0'];
    assert Substr(Decimal(10000), 0, 4) == Decimal(1000);
    assert Substr(Decimal(10001), 0, 4) == Decimal(1000);
  }
}
