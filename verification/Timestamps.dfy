/** Instants as Go's time.RFC3339Nano prints them in UTC, and how the order of
    the printed strings relates to the order of the instants. */
module Timestamps {
  import opened Lex

  /** Nanoseconds since 1970-01-01T00:00:00Z. */
  type Instant = nat

  const SECOND: nat := 1_000_000_000
  const DAY_SECONDS: nat := 86_400
  const DAY: nat := 86_400 * 1_000_000_000

  datatype Date = Date(year: nat, month: nat, day: nat)

  predicate Leap(y: nat) {
    y % 4 == 0 && (y % 100 != 0 || y % 400 == 0)
  }

  function DaysIn(y: nat, m: nat): (n: nat) {
    if m == 2 then (if Leap(y) then 29 else 28)
    else if m == 4 || m == 6 || m == 9 || m == 11 then 30
    else 31
  }

  predicate ValidDate(d: Date) {
    1 <= d.month <= 12 && 1 <= d.day <= DaysIn(d.year, d.month)
  }

  function NextDate(d: Date): (n: Date)
    requires ValidDate(d)
    ensures ValidDate(n) && Earlier(d, n)
  {
    if d.day < DaysIn(d.year, d.month) then Date(d.year, d.month, d.day + 1)
    else if d.month < 12 then Date(d.year, d.month + 1, 1)
    else Date(d.year + 1, 1, 1)
  }

  /** The civil date a number of days after 1 January 1970. */
  function DateOf(days: nat): (d: Date)
    ensures ValidDate(d)
  {
    if days == 0 then Date(1970, 1, 1) else NextDate(DateOf(days - 1))
  }

  predicate Earlier(a: Date, b: Date) {
    a.year < b.year || (a.year == b.year && (a.month < b.month || (a.month == b.month && a.day < b.day)))
  }

  lemma {:induction false} DatesAdvance(a: nat, b: nat)
    requires a < b
    ensures Earlier(DateOf(a), DateOf(b))
    decreases b
  {
    if a < b - 1 {
      DatesAdvance(a, b - 1);
    }
  }

  function DigitChar(n: nat): (c: char)
    requires n < 10
    ensures '0' <= c <= '9'
  {
    '0' + n as char
  }

  /** The last w decimal digits of n, zero-padded. */
  function Digits(n: nat, w: nat): (s: string)
    ensures |s| == w
    ensures forall i :: 0 <= i < w ==> '0' <= s[i] <= '9'
  {
    if w == 0 then "" else Digits(n / 10, w - 1) + [DigitChar(n % 10)]
  }

  function Pow10(w: nat): (p: nat)
    ensures p > 0
  {
    if w == 0 then 1 else 10 * Pow10(w - 1)
  }

  lemma NineDigits()
    ensures Pow10(9) == SECOND
  {
    assert Pow10(3) == 1_000;
    assert Pow10(6) == 1_000 * Pow10(3);
    assert Pow10(9) == 1_000 * Pow10(6);
  }

  lemma {:induction false} DigitsOrder(a: nat, b: nat, w: nat)
    requires a < b < Pow10(w)
    ensures Lt(Digits(a, w), Digits(b, w))
    decreases w
  {
    if w > 0 {
      var p, q := Digits(a / 10, w - 1), Digits(b / 10, w - 1);
      var x, y := [DigitChar(a % 10)], [DigitChar(b % 10)];
      if a / 10 < b / 10 {
        DigitsOrder(a / 10, b / 10, w - 1);
        HeadDecides(p, q, x, y);
      } else {
        SharedPrefix(p, x, y);
      }
    }
  }

  /** Three numeric fields with a separator: the printed form. */
  function Fields(x: nat, w: nat, y: nat, z: nat, sep: string): string {
    Digits(x, w) + (sep + (Digits(y, 2) + (sep + Digits(z, 2))))
  }

  /** "2006-01-02" of a day: also the value of the dateBucket attribute. */
  function DayText(days: nat): (s: string)
    ensures |s| == 10
  {
    var d := DateOf(days);
    Fields(d.year, 4, d.month, d.day, "-")
  }

  /** "T15:04:05" of a second of the day. */
  function ClockText(s: nat): (c: string)
    ensures |c| == 9
  {
    "T" + Fields(s / 3600, 2, s / 60 % 60, s % 60, ":")
  }

  /** Go's "9" fraction verbs drop trailing zeros. */
  function Stripped(s: string): (r: string)
    ensures r <= s
    ensures |r| > 0 ==> r[|r| - 1] != '0'
    ensures forall i :: |r| <= i < |s| ==> s[i] == '0'
  {
    if |s| > 0 && s[|s| - 1] == '0' then Stripped(s[..|s| - 1]) else s
  }

  /** The printed fraction digits of an instant; empty on a whole second. */
  function FractionDigits(t: Instant): (r: string)
    ensures forall i :: 0 <= i < |r| ==> '0' <= r[i] <= '9'
  {
    Stripped(Digits(t % SECOND, 9))
  }

  /** What follows the seconds: the fraction, if any, and the zone letter. */
  function FractionText(t: Instant): (r: string)
    ensures |r| > 0
  {
    if t % SECOND == 0 then "Z" else "." + (FractionDigits(t) + "Z")
  }

  function SecondText(t: Instant): (s: string)
    ensures |s| == 19 && s[..10] == DayText(t / DAY)
  {
    DayText(t / DAY) + ClockText(t / SECOND % DAY_SECONDS)
  }

  /** time.Time.Format(time.RFC3339Nano) in UTC. Its first ten characters, the
      dateBucket of a row created then, are the printed day. */
  function Format(t: Instant): (s: string)
    ensures |s| >= 20 && s[..10] == DayText(t / DAY)
  {
    SecondText(t) + FractionText(t)
  }

  /** RFC 3339 has four-digit years. */
  predicate Printable(t: Instant) {
    DateOf(t / DAY).year <= 9999
  }

  lemma EarlierIsPrintable(a: Instant, b: Instant)
    requires a <= b && Printable(b)
    ensures Printable(a)
  {
    if a / DAY < b / DAY {
      DatesAdvance(a / DAY, b / DAY);
    }
  }

  lemma FieldsOrder(x: nat, y: nat, z: nat, x': nat, y': nat, z': nat, w: nat, sep: string)
    requires x <= x' < Pow10(w) && y < 100 && y' < 100 && z < 100 && z' < 100
    requires Earlier(Date(x, y, z), Date(x', y', z'))
    ensures Lt(Fields(x, w, y, z, sep), Fields(x', w, y', z', sep))
  {
    assert Pow10(2) == 100;
    var m, n := Digits(y, 2) + (sep + Digits(z, 2)), Digits(y', 2) + (sep + Digits(z', 2));
    if x < x' {
      DigitsOrder(x, x', w);
      HeadDecides(Digits(x, w), Digits(x', w), sep + m, sep + n);
    } else {
      if y < y' {
        DigitsOrder(y, y', 2);
        HeadDecides(Digits(y, 2), Digits(y', 2), sep + Digits(z, 2), sep + Digits(z', 2));
      } else {
        DigitsOrder(z, z', 2);
        SharedPrefix(sep, Digits(z, 2), Digits(z', 2));
        SharedPrefix(Digits(y, 2), sep + Digits(z, 2), sep + Digits(z', 2));
      }
      SharedPrefix(sep, m, n);
      SharedPrefix(Digits(x, w), sep + m, sep + n);
    }
  }

  lemma DayOrder(a: nat, b: nat)
    requires a < b && DateOf(b).year <= 9999
    ensures Lt(DayText(a), DayText(b))
  {
    var d, e := DateOf(a), DateOf(b);
    DatesAdvance(a, b);
    assert Pow10(4) == 10000;
    FieldsOrder(d.year, d.month, d.day, e.year, e.month, e.day, 4, "-");
  }

  lemma ClockParts(a: nat) returns (h: nat, m: nat, s: nat)
    requires a < DAY_SECONDS
    ensures h == a / 3600 && m == a / 60 % 60 && s == a % 60
    ensures a == 3600 * h + 60 * m + s && h < 24 && m < 60 && s < 60
  {
    h, m, s := a / 3600, a / 60 % 60, a % 60;
    assert a / 60 / 60 == a / 3600;
  }

  lemma ClockFields(a: nat, b: nat)
    requires a < b < DAY_SECONDS
    ensures a / 3600 <= b / 3600 < 100
    ensures Earlier(Date(a / 3600, a / 60 % 60, a % 60), Date(b / 3600, b / 60 % 60, b % 60))
  {
    var h, m, s := ClockParts(a);
    var h', m', s' := ClockParts(b);
    assert Earlier(Date(h, m, s), Date(h', m', s'));
  }

  lemma ClockOrder(a: nat, b: nat)
    requires a < b < DAY_SECONDS
    ensures Lt(ClockText(a), ClockText(b))
  {
    ClockFields(a, b);
    assert Pow10(2) == 100;
    FieldsOrder(a / 3600, a / 60 % 60, a % 60, b / 3600, b / 60 % 60, b % 60, 2, ":");
    SharedPrefix("T", Fields(a / 3600, 2, a / 60 % 60, a % 60, ":"), Fields(b / 3600, 2, b / 60 % 60, b % 60, ":"));
  }

  lemma SecondOrder(a: Instant, b: Instant)
    requires a / SECOND < b / SECOND && Printable(b)
    ensures Lt(SecondText(a), SecondText(b))
  {
    var c, d := ClockText(a / SECOND % DAY_SECONDS), ClockText(b / SECOND % DAY_SECONDS);
    DayOfSecond(a);
    DayOfSecond(b);
    if a / DAY < b / DAY {
      DayOrder(a / DAY, b / DAY);
      HeadDecides(DayText(a / DAY), DayText(b / DAY), c, d);
    } else {
      ClockOrder(a / SECOND % DAY_SECONDS, b / SECOND % DAY_SECONDS);
      SharedPrefix(DayText(a / DAY), c, d);
    }
  }

  lemma DayOfSecond(t: Instant)
    ensures t / DAY == t / SECOND / DAY_SECONDS
    ensures t / SECOND == (t / DAY) * DAY_SECONDS + t / SECOND % DAY_SECONDS
  {
  }

  /** Strings order like instants whenever the whole seconds differ. */
  lemma DifferentSecondsOrder(a: Instant, b: Instant)
    requires a / SECOND < b / SECOND && Printable(b)
    ensures Lt(Format(a), Format(b))
  {
    SecondOrder(a, b);
    HeadDecides(SecondText(a), SecondText(b), FractionText(a), FractionText(b));
  }

  lemma {:induction false} ZeroDigits(w: nat)
    ensures forall i :: 0 <= i < w ==> Digits(0, w)[i] == '0'
  {
    if w > 0 {
      ZeroDigits(w - 1);
    }
  }

  lemma {:induction false} ZerosAreLeast(p: string, q: string)
    requires |p| == |q|
    requires forall i :: 0 <= i < |p| ==> '0' <= p[i] && q[i] == '0'
    ensures !Lt(p, q)
    decreases |p|
  {
    if |p| > 0 {
      ZerosAreLeast(p[1..], q[1..]);
    }
  }

  /** A fraction prints no digits exactly when it is zero. */
  lemma NoDigitsIffWhole(t: Instant)
    ensures FractionDigits(t) == "" <==> t % SECOND == 0
  {
    var f := Digits(t % SECOND, 9);
    if t % SECOND == 0 {
      ZeroDigits(9);
    } else if FractionDigits(t) == "" {
      NineDigits();
      DigitsOrder(0, t % SECOND, 9);
      ZerosAreLeast(Digits(0, 9), f);
    }
  }

  /** Digit strings p and q with zeros appended in order, p no prefix of q:
      the first difference already decides. */
  lemma PaddedPart(p: string, q: string, f: string, g: string) returns (i: nat)
    requires p <= f && q <= g && |f| == |g| && Lt(f, g) && !(p <= q)
    requires forall k :: |q| <= k < |g| ==> g[k] == '0'
    requires forall k :: 0 <= k < |f| ==> '0' <= f[k]
    ensures i < |p| && i < |q| && p[..i] == q[..i] && p[i] < q[i]
  {
    i := Part(p, q);
    assert f[..i] == p[..i] && g[..i] == q[..i];
    assert f == f[..i] + f[i..] && g == g[..i] + g[i..];
    SharedPrefix(f[..i], f[i..], g[i..]);
    if i == |q| {
      ZerosAreLeast(f[i..], g[i..]);
    }
  }

  lemma ExtendedComesFirst(p: string, q: string)
    requires p <= q && p != q
    requires forall k :: 0 <= k < |q| ==> '0' <= q[k] <= '9'
    ensures Lt(q + "Z", p + "Z")
  {
    var r := q[|p|..];
    assert q + "Z" == p + (r + "Z");
    SharedPrefix(p, r + "Z", "Z");
  }

  lemma FirstDifferenceDecides(p: string, q: string, i: nat, x: string, y: string)
    requires i < |p| && i < |q| && p[..i] == q[..i] && p[i] < q[i]
    ensures Lt(p + x, q + y)
  {
    assert p + x == p[..i] + (p[i..] + x) && q + y == p[..i] + (q[i..] + y);
    SharedPrefix(p[..i], p[i..] + x, q[i..] + y);
  }

  lemma FractionOrder(a: Instant, b: Instant)
    requires a % SECOND < b % SECOND
    ensures Lt(Digits(a % SECOND, 9), Digits(b % SECOND, 9))
    ensures FractionDigits(a) != FractionDigits(b)
  {
    NineDigits();
    DigitsOrder(a % SECOND, b % SECOND, 9);
    if FractionDigits(a) == FractionDigits(b) {
      SameDigits(a, b);
    }
  }

  lemma WithinSecond(a: Instant, b: Instant)
    requires a % SECOND < b % SECOND
    ensures !(FractionDigits(a) <= FractionDigits(b)) ==> Lt(FractionText(a), FractionText(b))
    ensures FractionDigits(a) <= FractionDigits(b) ==> Lt(FractionText(b), FractionText(a))
  {
    var p, q := FractionDigits(a), FractionDigits(b);
    NoDigitsIffWhole(a);
    NoDigitsIffWhole(b);
    FractionOrder(a, b);
    if p != "" {
      if p <= q {
        ExtendedComesFirst(p, q);
        SharedPrefix(".", q + "Z", p + "Z");
      } else {
        var i := PaddedPart(p, q, Digits(a % SECOND, 9), Digits(b % SECOND, 9));
        FirstDifferenceDecides(p, q, i, "Z", "Z");
        SharedPrefix(".", p + "Z", q + "Z");
      }
    }
  }

  lemma SameDigits(a: Instant, b: Instant)
    requires FractionDigits(a) == FractionDigits(b)
    ensures a % SECOND == b % SECOND
  {
    var f, g := Digits(a % SECOND, 9), Digits(b % SECOND, 9);
    var n := |FractionDigits(a)|;
    assert f[..n] == g[..n];
    assert forall i :: 0 <= i < 9 ==> f[i] == g[i];
    assert f == g;
    NineDigits();
    if a % SECOND < b % SECOND {
      DigitsOrder(a % SECOND, b % SECOND, 9);
      Irreflexive(f);
    } else if b % SECOND < a % SECOND {
      DigitsOrder(b % SECOND, a % SECOND, 9);
      Irreflexive(f);
    }
  }

  /** The exact condition for string order to agree with time order: the later
      instant is in another second, or the earlier one's printed fraction is not
      a textual prefix of the later one's. Otherwise the order is reversed. */
  lemma StringOrderExact(a: Instant, b: Instant)
    requires a < b && Printable(b)
    ensures Lt(Format(a), Format(b)) <==> a / SECOND != b / SECOND || !(FractionDigits(a) <= FractionDigits(b))
    ensures Lt(Format(b), Format(a)) <==> !Lt(Format(a), Format(b))
  {
    if a / SECOND < b / SECOND {
      DifferentSecondsOrder(a, b);
      Asymmetric(Format(a), Format(b));
    } else {
      assert a == a / SECOND * SECOND + a % SECOND && b == b / SECOND * SECOND + b % SECOND;
      WithinSecond(a, b);
      DayOfSecond(a);
      DayOfSecond(b);
      assert SecondText(a) == SecondText(b);
      SharedPrefix(SecondText(a), FractionText(a), FractionText(b));
      SharedPrefix(SecondText(a), FractionText(b), FractionText(a));
      if Lt(Format(a), Format(b)) {
        Asymmetric(Format(a), Format(b));
      } else {
        Asymmetric(Format(b), Format(a));
      }
    }
  }

  /** Half a second later is printed as an earlier string. */
  lemma SameSecondReversed()
    ensures Lt(Format(500_000_000), Format(0))
  {
    NoDigitsIffWhole(0);
    StringOrderExact(0, 500_000_000);
  }

  /** No two instants print alike. */
  lemma FormatInjective(a: Instant, b: Instant)
    requires Printable(a) && Printable(b) && Format(a) == Format(b)
    ensures a == b
  {
    Irreflexive(Format(a));
    if a < b {
      StringOrderExact(a, b);
    } else if b < a {
      StringOrderExact(b, a);
    }
  }

  /** At or after in string order is never on an earlier day. */
  lemma AtOrAfterDay(a: Instant, b: Instant)
    requires Le(Format(a), Format(b)) && Printable(a)
    ensures a / DAY <= b / DAY
  {
    if b / DAY < a / DAY {
      DayOfSecond(a);
      DayOfSecond(b);
      DifferentSecondsOrder(b, a);
      LeOrLt(Format(a), Format(b));
    }
  }
}
