/** The relative age shown beside each entry (`relativeLabel`): the time
    since the entry in whole seconds, minutes, hours or days, whichever is
    the first unit whose count stays under its limit (60 s, 60 m, 24 h),
    written as the count in decimal followed by the unit letter.

    Every division is JavaScript's `Math.floor(x / k)` with a positive
    constant `k`; Dafny's `/` on `int` agrees with it for a positive divisor,
    negative `x` included. */
module RelativeTime {

  datatype Unit = Seconds | Minutes | Hours | Days

  /** A count together with the unit it is counted in. */
  datatype Age = Age(amount: int, unit: Unit)

  const MsPerSecond: int := 1000
  const MsPerMinute: int := 60 * 1000
  const MsPerHour: int := 60 * 60 * 1000
  const MsPerDay: int := 24 * 60 * 60 * 1000

  /** The age of an entry stamped `ts` at clock reading `now` (both in ms). */
  function RelativeAge(now: int, ts: int): Age {
    var diff := now - ts;
    var s := diff / 1000;
    if s < 60 then Age(s, Seconds)
    else
      var m := s / 60;
      if m < 60 then Age(m, Minutes)
      else
        var h := m / 60;
        if h < 24 then Age(h, Hours)
        else Age(h / 24, Days)
  }

  /** The unit chosen, and the count in it, stated directly on the
      millisecond difference: the thresholds are one minute, one hour and one
      day, and the count is the difference floor-divided by the unit's length.
      A negative difference (an entry stamped in the future) gives seconds. */
  lemma RelativeAgeByThresholds(now: int, ts: int)
    ensures var diff, a := now - ts, RelativeAge(now, ts);
            && (a.unit == Seconds <==> diff < MsPerMinute)
            && (a.unit == Minutes <==> MsPerMinute <= diff < MsPerHour)
            && (a.unit == Hours <==> MsPerHour <= diff < MsPerDay)
            && (a.unit == Days <==> MsPerDay <= diff)
            && a.amount == diff / (match a.unit
                                   case Seconds => MsPerSecond
                                   case Minutes => MsPerMinute
                                   case Hours => MsPerHour
                                   case Days => MsPerDay)
  {
  }

  /** The counts shown in each unit stay in that unit's range: seconds below
      60 (negative for a future timestamp), minutes 1..59, hours 1..23, days
      at least 1. */
  lemma RelativeAgeRanges(now: int, ts: int)
    ensures var a := RelativeAge(now, ts);
            && (a.unit == Seconds ==> a.amount < 60)
            && (a.unit == Minutes ==> 1 <= a.amount < 60)
            && (a.unit == Hours ==> 1 <= a.amount < 24)
            && (a.unit == Days ==> 1 <= a.amount)
            && (now >= ts ==> a.amount >= 0)
  {
  }

  // ---- Decimal rendering, as a template literal `${n}` prints an integer ----

  predicate IsDigit(c: char) {
    '0' <= c <= '9'
  }

  function DigitChar(d: nat): (c: char)
    requires d < 10
    ensures IsDigit(c) && c as int - '0' as int == d
  {
    ('0' as int + d) as char
  }

  /** The decimal digits of n, most significant first, without leading zeros. */
  function NatToDecimal(n: nat): (s: string)
    ensures s != [] && forall i :: 0 <= i < |s| ==> IsDigit(s[i])
    ensures |s| > 1 ==> s[0] != '0'
    decreases n
  {
    if n < 10 then [DigitChar(n)] else NatToDecimal(n / 10) + [DigitChar(n % 10)]
  }

  /** The value of a string of decimal digits. */
  function DecimalValue(s: string): int
    requires forall i :: 0 <= i < |s| ==> IsDigit(s[i])
    decreases |s|
  {
    if s == [] then 0
    else DecimalValue(s[..|s| - 1]) * 10 + (s[|s| - 1] as int - '0' as int)
  }

  /** Reading back the digits written for n gives n. */
  lemma {:induction false} DecimalRoundTrip(n: nat)
    ensures DecimalValue(NatToDecimal(n)) == n
    decreases n
  {
    if n >= 10 {
      var s := NatToDecimal(n);
      DecimalRoundTrip(n / 10);
      assert s[..|s| - 1] == NatToDecimal(n / 10);
    }
  }

  /** The decimal form of an integer: a minus sign before the digits of its
      magnitude when it is negative. */
  function IntToDecimal(n: int): (s: string)
    ensures s != [] && (s[0] == '-' <==> n < 0)
  {
    if n < 0 then "-" + NatToDecimal(-n) else NatToDecimal(n)
  }

  /** Distinct integers are printed differently. */
  lemma IntToDecimalInjective(x: int, y: int)
    requires IntToDecimal(x) == IntToDecimal(y)
    ensures x == y
  {
    if x < 0 && y < 0 {
      assert NatToDecimal(-x) == IntToDecimal(x)[1..];
      assert NatToDecimal(-y) == IntToDecimal(y)[1..];
      DecimalRoundTrip(-x);
      DecimalRoundTrip(-y);
    } else if x >= 0 && y >= 0 {
      DecimalRoundTrip(x);
      DecimalRoundTrip(y);
    }
  }

  function UnitLetter(u: Unit): char {
    match u
    case Seconds => 's'
    case Minutes => 'm'
    case Hours => 'h'
    case Days => 'd'
  }

  function ShowAge(a: Age): (s: string)
    ensures |s| >= 2 && s[|s| - 1] == UnitLetter(a.unit)
  {
    IntToDecimal(a.amount) + [UnitLetter(a.unit)]
  }

  /** `relativeLabel(ts)` with `Date.now()` read as `now`. */
  function RelativeLabel(now: int, ts: int): string {
    ShowAge(RelativeAge(now, ts))
  }

  /** The label is never empty, ends in the unit letter, and the label alone
      determines both the count and the unit. */
  lemma ShowAgeDetermines(a: Age, b: Age)
    requires ShowAge(a) == ShowAge(b)
    ensures a == b
  {
    var sa, sb := ShowAge(a), ShowAge(b);
    assert UnitLetter(a.unit) == sa[|sa| - 1] == sb[|sb| - 1] == UnitLetter(b.unit);
    assert sa[..|sa| - 1] == IntToDecimal(a.amount);
    assert sb[..|sb| - 1] == IntToDecimal(b.amount);
    IntToDecimalInjective(a.amount, b.amount);
  }
}
