/**
 Build IDs of the form local-build-YYYYMMDD.N: parsing, rendering, and the order stamps compare.
 */
module BuildId {
  import opened Wrappers

  datatype BuildOrder = BuildOrder(year: nat, month: nat, day: nat, revision: nat)

  predicate IsDigits(s: string) {
    forall i :: 0 <= i < |s| ==> '0' <= s[i] <= '9'
  }

  function DigitValue(c: char): nat
    requires '0' <= c <= '9'
  {
    c as nat - '0' as nat
  }

  function Digit(n: nat): char
    requires n < 10
  {
    '0' + n as char
  }

  function FromDigits(s: string): nat
    requires IsDigits(s)
  {
    if s == "" then 0 else 10 * FromDigits(s[..|s| - 1]) + DigitValue(s[|s| - 1])
  }

  /** Exactly `width` digits, with leading zeros. */
  function Padded(n: nat, width: nat): (s: string)
    ensures |s| == width && IsDigits(s)
  {
    if width == 0 then "" else Padded(n / 10, width - 1) + [Digit(n % 10)]
  }

  /** No leading zeros. */
  function Decimal(n: nat): (s: string)
    ensures s != "" && IsDigits(s)
    ensures n > 0 ==> s[0] != '0'
  {
    if n < 10 then [Digit(n)] else Decimal(n / 10) + [Digit(n % 10)]
  }

  lemma DivideByTen(n: nat, d: nat)
    requires d < 10
    ensures (10 * n + d) / 10 == n && (10 * n + d) % 10 == d
  {
  }

  lemma PaddedSnoc(n: nat, d: nat, width: nat)
    requires d < 10
    ensures Padded(10 * n + d, width + 1) == Padded(n, width) + [Digit(d)]
  {
    DivideByTen(n, d);
  }

  lemma DecimalSnoc(n: nat, d: nat)
    requires n > 0 && d < 10
    ensures Decimal(10 * n + d) == Decimal(n) + [Digit(d)]
  {
    DivideByTen(n, d);
  }

  lemma DigitOfValue(c: char)
    requires '0' <= c <= '9'
    ensures DigitValue(c) < 10 && Digit(DigitValue(c)) == c
  {
  }

  lemma {:induction false} PaddedFromDigits(s: string)
    requires IsDigits(s)
    ensures Padded(FromDigits(s), |s|) == s
  {
    if s != "" {
      var n := |s| - 1;
      PaddedFromDigits(s[..n]);
      DigitOfValue(s[n]);
      PaddedSnoc(FromDigits(s[..n]), DigitValue(s[n]), n);
      assert s == s[..n] + [s[n]];
    }
  }

  lemma {:induction false} DecimalFromDigits(s: string)
    requires IsDigits(s) && s != "" && s[0] != '0'
    ensures FromDigits(s) > 0 && Decimal(FromDigits(s)) == s
  {
    var n := |s| - 1;
    DigitOfValue(s[n]);
    if n == 0 {
      assert s[..0] == "";
      assert s == [s[0]];
    } else {
      DecimalFromDigits(s[..n]);
      DecimalSnoc(FromDigits(s[..n]), DigitValue(s[n]));
      assert s == s[..n] + [s[n]];
    }
  }

  predicate IsLeap(year: nat) {
    year % 4 == 0 && (year % 100 != 0 || year % 400 == 0)
  }

  function DaysIn(year: nat, month: nat): nat
    requires 1 <= month <= 12
  {
    if month == 2 then (if IsLeap(year) then 29 else 28)
    else if month in {4, 6, 9, 11} then 30
    else 31
  }

  predicate IsDate(year: nat, month: nat, day: nat) {
    1 <= year <= 9999 && 1 <= month <= 12 && 1 <= day <= DaysIn(year, month)
  }

  const PREFIX := "local-build-"

  predicate MatchesPattern(s: string) {
    && 22 <= |s| <= 25 && s[..12] == PREFIX && s[20] == '.' && s[21] != '0'
    && forall i :: 12 <= i < |s| && i != 20 ==> '0' <= s[i] <= '9'
  }

  lemma {:induction false} DigitsBound(s: string)
    requires IsDigits(s)
    ensures FromDigits(s) < Power10(|s|)
  {
    if s != "" {
      DigitsBound(s[..|s| - 1]);
    }
  }

  function Power10(n: nat): (p: nat)
    ensures p > 0
  {
    if n == 0 then 1 else 10 * Power10(n - 1)
  }

  lemma FourDigits(s: string)
    requires IsDigits(s) && |s| <= 4
    ensures FromDigits(s) <= 9999
  {
    DigitsBound(s);
    assert Power10(2) == 100 && Power10(3) == 1000 && Power10(4) == 10000;
  }

  function ParseBuildId(s: string): (r: Option<BuildOrder>)
    ensures r.Some? ==> IsDate(r.value.year, r.value.month, r.value.day) && 0 < r.value.revision <= 9999
  {
    if !MatchesPattern(s) then None
    else
      FourDigits(s[21..]);
      var year, month, day := FromDigits(s[12..16]), FromDigits(s[16..18]), FromDigits(s[18..20]);
      DecimalFromDigits(s[21..]);
      if IsDate(year, month, day) then Some(BuildOrder(year, month, day, FromDigits(s[21..]))) else None
  }

  function Render(b: BuildOrder): string {
    PREFIX + Padded(b.year, 4) + Padded(b.month, 2) + Padded(b.day, 2) + "." + Decimal(b.revision)
  }

  lemma PatternSplits(s: string)
    requires MatchesPattern(s)
    ensures s == PREFIX + s[12..16] + s[16..18] + s[18..20] + "." + s[21..]
  {
    assert s == s[..12] + s[12..16] + s[16..18] + s[18..20] + [s[20]] + s[21..];
  }

  lemma FieldsReadBack(s: string)
    requires MatchesPattern(s)
    ensures Padded(FromDigits(s[12..16]), 4) == s[12..16]
    ensures Padded(FromDigits(s[16..18]), 2) == s[16..18]
    ensures Padded(FromDigits(s[18..20]), 2) == s[18..20]
    ensures FromDigits(s[21..]) > 0 && Decimal(FromDigits(s[21..])) == s[21..]
  {
    PaddedFromDigits(s[12..16]);
    PaddedFromDigits(s[16..18]);
    PaddedFromDigits(s[18..20]);
    DecimalFromDigits(s[21..]);
  }

  /** Writing out what was parsed gives the text back, so nothing in an accepted ID is lost. */
  lemma ParseRoundTrip(s: string)
    requires ParseBuildId(s).Some?
    ensures Render(ParseBuildId(s).value) == s
  {
    PatternSplits(s);
    FieldsReadBack(s);
  }

  /** Two accepted IDs with equal date and revision are the same text. */
  lemma ParseInjective(s: string, t: string)
    requires ParseBuildId(s).Some? && ParseBuildId(s) == ParseBuildId(t)
    ensures s == t
  {
    ParseRoundTrip(s);
    ParseRoundTrip(t);
  }

  /** The Gregorian calendar from year 1 to 9999. */
  lemma Dates(year: nat, month: nat, day: nat)
    ensures IsDate(year, month, day) <==>
            && 1 <= year <= 9999 && 1 <= day
            && (|| (month in {1, 3, 5, 7, 8, 10, 12} && day <= 31)
                || (month in {4, 6, 9, 11} && day <= 30)
                || (month == 2 && day <= 28)
                || (month == 2 && day == 29 && (year % 400 == 0 || (year % 4 == 0 && year % 100 != 0))))
  {
  }

  lemma {:induction false} PaddedReads(n: nat, width: nat)
    requires n < Power10(width)
    ensures FromDigits(Padded(n, width)) == n
  {
    if width > 0 {
      PaddedReads(n / 10, width - 1);
      var s := Padded(n, width);
      assert s[..width - 1] == Padded(n / 10, width - 1) && s[width - 1] == Digit(n % 10);
    }
  }

  lemma {:induction false} DecimalReads(n: nat)
    ensures FromDigits(Decimal(n)) == n
    ensures n < 10000 ==> |Decimal(n)| <= (if n < 10 then 1 else if n < 100 then 2 else if n < 1000 then 3 else 4)
  {
    var s := Decimal(n);
    if n < 10 {
      assert s[..0] == "" && s[0] == Digit(n);
    } else {
      DecimalReads(n / 10);
      assert s[..|s| - 1] == Decimal(n / 10) && s[|s| - 1] == Digit(n % 10);
    }
  }

  lemma Fields(year: string, month: string, day: string, revision: string, s: string)
    requires |year| == 4 && |month| == 2 && |day| == 2 && 1 <= |revision| <= 4
    requires IsDigits(year) && IsDigits(month) && IsDigits(day) && IsDigits(revision) && revision[0] != '0'
    requires s == PREFIX + year + month + day + "." + revision
    ensures MatchesPattern(s) && s[12..16] == year && s[16..18] == month && s[18..20] == day && s[21..] == revision
  {
    assert |PREFIX| == 12;
  }

  /** Every date with every number from 1 to 9999 is an ID, and reads back as itself. */
  lemma RenderParses(b: BuildOrder)
    requires IsDate(b.year, b.month, b.day) && 1 <= b.revision <= 9999
    ensures ParseBuildId(Render(b)) == Some(b)
  {
    assert Power10(2) == 100 && Power10(3) == 1000 && Power10(4) == 10000;
    PaddedReads(b.year, 4);
    PaddedReads(b.month, 2);
    PaddedReads(b.day, 2);
    DecimalReads(b.revision);
    Fields(Padded(b.year, 4), Padded(b.month, 2), Padded(b.day, 2), Decimal(b.revision), Render(b));
  }

  predicate Before(a: BuildOrder, b: BuildOrder) {
    || a.year < b.year
    || (a.year == b.year && a.month < b.month)
    || (a.year == b.year && a.month == b.month && a.day < b.day)
    || (a.year == b.year && a.month == b.month && a.day == b.day && a.revision < b.revision)
  }
}
