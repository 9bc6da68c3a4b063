/** Splitting a duration into calendar-like units (common/duration/duration.go), over integer nanoseconds. */
module Durations {

  datatype Unit = Year | Month | Day | Hour | Minute | Second

  datatype Part = Part(count: int, unit: Unit)

  const SECOND: int := 1_000_000_000
  const MINUTE: int := 60 * SECOND
  const HOUR: int := 60 * MINUTE
  const DAY: int := 24 * HOUR
  const MONTH: int := 30 * DAY
  const YEAR: int := 365 * DAY

  /** A unit in nanoseconds. The source divides seconds by the numbers in the contract and takes off the constants. */
  function Length(u: Unit): (n: int)
    ensures n > 0
    ensures n == 1_000_000_000 * match u
                                 case Year => 365 * 86_400
                                 case Month => 30 * 86_400
                                 case Day => 86_400
                                 case Hour => 3600
                                 case Minute => 60
                                 case Second => 1
  {
    match u
    case Year => YEAR
    case Month => MONTH
    case Day => DAY
    case Hour => HOUR
    case Minute => MINUTE
    case Second => SECOND
  }

  /** Whole units, rounded down, and what is left: Years, Months, Days, Hours and Minutes. */
  function Take(d: int, u: Unit): (r: (int, int))
    ensures r.0 * Length(u) + r.1 == d && 0 <= r.1 < Length(u)
  {
    var n := d / Length(u);
    (n, d - n * Length(u))
  }

  /** Nearest second, halves up, of a non-negative duration below a minute. */
  function Rounded(d: int): (n: int)
    ensures -SECOND < 2 * (n * SECOND - d) <= SECOND
  {
    (2 * d + SECOND) / (2 * SECOND)
  }

  // ---- reference ----

  datatype Branch = ToSeconds | ToMinutes | ToHours

  function BranchOf(d: int): Branch {
    if d < MONTH then ToSeconds else if d < YEAR then ToMinutes else ToHours
  }

  /** The digits of d in the given units, most significant first. */
  function Split(d: int, us: seq<Unit>): (r: seq<int>)
    ensures |r| == |us|
    decreases us
  {
    if us == [] then [] else [Take(d, us[0]).0] + Split(Take(d, us[0]).1, us[1..])
  }

  /** What Split leaves over. */
  function Rest(d: int, us: seq<Unit>): int
    decreases us
  {
    if us == [] then d else Rest(Take(d, us[0]).1, us[1..])
  }

  function Digits(d: int): seq<int> {
    match BranchOf(d)
    case ToSeconds => Split(d, [Day, Hour, Minute]) + [Rounded(Rest(d, [Day, Hour, Minute]))]
    case ToMinutes => Split(d, [Month, Day, Hour, Minute])
    case ToHours => Split(d, [Year, Month, Day, Hour])
  }

  function Counted(n: int, u: Unit): seq<Part> {
    if n > 0 then [Part(n, u)] else []
  }

  function Parts(d: int, us: seq<Unit>): seq<Part>
    decreases us
  {
    if us == [] then [] else Counted(Take(d, us[0]).0, us[0]) + Parts(Take(d, us[0]).1, us[1..])
  }

  /** Seconds appear whenever anything is left below a minute, even when it rounds to zero. */
  function ShownToSeconds(d: int): seq<Part> {
    var us := [Day, Hour, Minute];
    Parts(d, us) + if Rest(d, us) > 0 then [Part(Rounded(Rest(d, us)), Second)] else []
  }

  function Shown(d: int): seq<Part> {
    match BranchOf(d)
    case ToSeconds => ShownToSeconds(d)
    case ToMinutes => Parts(d, [Month, Day, Hour, Minute])
    case ToHours => Parts(d, [Year, Month, Day, Hour])
  }

  function Total(s: seq<Part>): int {
    if s == [] then 0 else s[0].count * Length(s[0].unit) + Total(s[1..])
  }

  lemma Thresholds(d: int)
    ensures Take(d, Month).0 < 1 <==> d < MONTH
    ensures Take(d, Year).0 < 1 <==> d < YEAR
  {
  }

  lemma Split3(d: int, u: Unit, v: Unit, w: Unit)
    ensures var (a, d1) := Take(d, u);
            var (b, d2) := Take(d1, v);
            var (c, d3) := Take(d2, w);
            && Split(d, [u, v, w]) == [a, b, c] && Rest(d, [u, v, w]) == d3
            && Parts(d, [u, v, w]) == Counted(a, u) + Counted(b, v) + Counted(c, w)
  {
    var (a, d1) := Take(d, u);
    var (b, d2) := Take(d1, v);
    assert [u, v, w][1..] == [v, w] && [v, w][1..] == [w] && [w][1..] == [];
    assert Split(d2, [w]) == [Take(d2, w).0] && Parts(d2, [w]) == Counted(Take(d2, w).0, w);
    assert Split(d1, [v, w]) == [b] + Split(d2, [w]) && Parts(d1, [v, w]) == Counted(b, v) + Parts(d2, [w]);
    assert Rest(d2, [w]) == Take(d2, w).1 && Rest(d1, [v, w]) == Rest(d2, [w]);
  }

  lemma Split4(d: int, t: Unit, u: Unit, v: Unit, w: Unit)
    ensures var (n, d0) := Take(d, t);
            && Split(d, [t, u, v, w]) == [n] + Split(d0, [u, v, w]) && Rest(d, [t, u, v, w]) == Rest(d0, [u, v, w])
            && Parts(d, [t, u, v, w]) == Counted(n, t) + Parts(d0, [u, v, w])
            && var (a, d1) := Take(d0, u);
               var (b, d2) := Take(d1, v);
               Parts(d0, [u, v, w]) == Counted(a, u) + Counted(b, v) + Counted(Take(d2, w).0, w)
  {
    assert [t, u, v, w][1..] == [u, v, w];
    Split3(Take(d, t).1, u, v, w);
  }

  // ---- the formatters ----

  method FormatWithoutMonth(d: int) returns (s: seq<Part>)
    ensures s == ShownToSeconds(d)
  {
    s := [];
    var (days, d1) := Take(d, Day);
    if days > 0 {
      s := s + [Part(days, Day)];
    }
    var (hours, d2) := Take(d1, Hour);
    if hours > 0 {
      s := s + [Part(hours, Hour)];
    }
    var (minutes, d3) := Take(d2, Minute);
    if minutes > 0 {
      s := s + [Part(minutes, Minute)];
    }
    assert s == Counted(days, Day) + Counted(hours, Hour) + Counted(minutes, Minute);
    Split3(d, Day, Hour, Minute);
    if d3 > 0 {
      s := s + [Part(Rounded(d3), Second)];
    }
  }

  method FormatWithoutYear(d: int) returns (s: seq<Part>)
    ensures s == Parts(d, [Month, Day, Hour, Minute])
  {
    s := [];
    var (months, d1) := Take(d, Month);
    if months > 0 {
      s := s + [Part(months, Month)];
    }
    var (days, d2) := Take(d1, Day);
    if days > 0 {
      s := s + [Part(days, Day)];
    }
    var (hours, d3) := Take(d2, Hour);
    if hours > 0 {
      s := s + [Part(hours, Hour)];
    }
    var (minutes, _) := Take(d3, Minute);
    if minutes > 0 {
      s := s + [Part(minutes, Minute)];
    }
    assert s == Counted(months, Month) + (Counted(days, Day) + Counted(hours, Hour) + Counted(minutes, Minute));
    Split4(d, Month, Day, Hour, Minute);
  }

  method Format(d: int) returns (s: seq<Part>)
    ensures s == Shown(d)
  {
    var (months, _) := Take(d, Month);
    Thresholds(d);
    if months < 1 {
      s := FormatWithoutMonth(d);
      return;
    }
    var (years, d1) := Take(d, Year);
    if years < 1 {
      s := FormatWithoutYear(d);
      return;
    }
    s := [];
    if years > 0 {
      s := s + [Part(years, Year)];
    }
    assert s == Counted(years, Year);
    var (months', d2) := Take(d1, Month);
    if months' > 0 {
      s := s + [Part(months', Month)];
    }
    assert s == Counted(years, Year) + Counted(months', Month);
    var (days, d3) := Take(d2, Day);
    if days > 0 {
      s := s + [Part(days, Day)];
    }
    assert s == Counted(years, Year) + (Counted(months', Month) + Counted(days, Day));
    var (hours, _) := Take(d3, Hour);
    if hours > 0 {
      s := s + [Part(hours, Hour)];
    }
    assert s == Counted(years, Year) + (Counted(months', Month) + Counted(days, Day) + Counted(hours, Hour));
    Split4(d, Year, Month, Day, Hour);
  }

  // ---- the shown units add up ----

  lemma {:induction false} TotalAppend(s: seq<Part>, t: seq<Part>)
    ensures Total(s + t) == Total(s) + Total(t)
  {
    if s == [] {
      assert s + t == t;
    } else {
      assert (s + t)[1..] == s[1..] + t;
      TotalAppend(s[1..], t);
    }
  }

  /** Splitting a non-negative duration loses nothing. */
  lemma {:induction false} PartsAddUp(d: int, us: seq<Unit>)
    requires d >= 0
    ensures Total(Parts(d, us)) + Rest(d, us) == d
    ensures us != [] ==> 0 <= Rest(d, us) < Length(us[|us| - 1])
    decreases us
  {
    if us != [] {
      var (n, left) := Take(d, us[0]);
      var length := Length(us[0]);
      assert n < 0 ==> n * length <= -length;
      PartsAddUp(left, us[1..]);
      TotalAppend(Counted(n, us[0]), Parts(left, us[1..]));
      assert Total(Counted(n, us[0])) == n * Length(us[0]);
    }
  }

  /** The shown units fall short of the duration by less than an hour or a minute, or are within half a second of it. */
  lemma ShownIsExact(d: int)
    requires d >= 0
    ensures match BranchOf(d)
            case ToHours => 0 <= d - Total(Shown(d)) < HOUR
            case ToMinutes => 0 <= d - Total(Shown(d)) < MINUTE
            case ToSeconds => -SECOND <= 2 * (d - Total(Shown(d))) <= SECOND
  {
    match BranchOf(d)
    case ToHours => PartsAddUp(d, [Year, Month, Day, Hour]);
    case ToMinutes => PartsAddUp(d, [Month, Day, Hour, Minute]);
    case ToSeconds =>
      var us := [Day, Hour, Minute];
      PartsAddUp(d, us);
      var tail := if Rest(d, us) > 0 then [Part(Rounded(Rest(d, us)), Second)] else [];
      TotalAppend(Parts(d, us), tail);
      assert Rest(d, us) > 0 ==> Total(tail) == Rounded(Rest(d, us)) * SECOND;
  }

  /** The days of a negative duration are negative and not shown. */
  lemma NegativeDaysDropped(d: int)
    requires d < 0
    ensures Take(d, Day).0 < 0 && Shown(d) == Shown(Take(d, Day).1)
  {
    var us := [Day, Hour, Minute];
    var (days, left) := Take(d, Day);
    assert days >= 0 ==> days * DAY >= 0;
    assert us[1..] == [Hour, Minute] && Take(left, Day) == (0, left);
    assert Parts(d, us) == Parts(left, [Hour, Minute]) == Parts(left, us);
    assert Rest(d, us) == Rest(left, [Hour, Minute]) == Rest(left, us);
  }

  /** A negative duration is shown as if whole days had been added to it: exactness holds exactly from zero on. */
  lemma ExactIffNonNegative(d: int)
    ensures BranchOf(d) == ToSeconds ==>
              (-SECOND <= 2 * (d - Total(Shown(d))) <= SECOND <==> d >= 0)
  {
    if d >= 0 {
      ShownIsExact(d);
    } else {
      var (days, left) := Take(d, Day);
      NegativeDaysDropped(d);
      ShownIsExact(left);
      assert days * DAY <= -DAY && d == days * DAY + left && BranchOf(left) == ToSeconds;
    }
  }

  /** What is shown of some digits: those above zero, each with its unit. */
  function Labelled(digits: seq<int>, us: seq<Unit>): seq<Part>
    requires |digits| == |us|
  {
    if us == [] then []
    else (if digits[0] > 0 then [Part(digits[0], us[0])] else []) + Labelled(digits[1..], us[1..])
  }

  lemma {:induction false} PartsAreLabelled(d: int, us: seq<Unit>)
    ensures Parts(d, us) == Labelled(Split(d, us), us)
    decreases us
  {
    if us != [] {
      PartsAreLabelled(Take(d, us[0]).1, us[1..]);
      assert Split(d, us)[1..] == Split(Take(d, us[0]).1, us[1..]);
    }
  }

  /** Every digit above zero is shown with its unit, in order, and nothing else but "0 seconds" for less than half a
      second. */
  lemma ShownAreDigits(d: int)
    ensures d < 30 * 86_400 * SECOND ==>
              && |Digits(d)| == 4
              && (Shown(d) == Labelled(Digits(d)[..3], [Day, Hour, Minute]) + Labelled(Digits(d)[3..], [Second])
                  || (Shown(d) == Labelled(Digits(d)[..3], [Day, Hour, Minute]) + [Part(0, Second)]
                      && 0 < 2 * Rest(d, [Day, Hour, Minute]) < SECOND))
    ensures 30 * 86_400 * SECOND <= d < 365 * 86_400 * SECOND ==>
              |Digits(d)| == 4 && Shown(d) == Labelled(Digits(d), [Month, Day, Hour, Minute])
    ensures 365 * 86_400 * SECOND <= d ==>
              |Digits(d)| == 4 && Shown(d) == Labelled(Digits(d), [Year, Month, Day, Hour])
  {
    PartsAreLabelled(d, [Day, Hour, Minute]);
    PartsAreLabelled(d, [Month, Day, Hour, Minute]);
    PartsAreLabelled(d, [Year, Month, Day, Hour]);
    if d < MONTH {
      assert Digits(d)[..3] == Split(d, [Day, Hour, Minute]) && Digits(d)[3..] == [Digits(d)[3]];
      assert Labelled(Digits(d)[3..], [Second]) == if Digits(d)[3] > 0 then [Part(Digits(d)[3], Second)] else [];
    }
  }

  // ---- the digits stay in range ----

  lemma TakeBelow(d: int, u: Unit, k: int)
    requires 0 <= d < k * Length(u)
    ensures 0 <= Take(d, u).0 < k
  {
  }

  /** The digits below the first one, given what the first one leaves. */
  lemma DayHourMinuteInRange(d: int, days: int)
    requires 0 <= d < days * DAY
    ensures var s := Split(d, [Day, Hour, Minute]);
            0 <= s[0] < days && 0 <= s[1] < 24 && 0 <= s[2] < 60 && 0 <= Rest(d, [Day, Hour, Minute]) < MINUTE
  {
    Split3(d, Day, Hour, Minute);
    TakeBelow(d, Day, days);
    TakeBelow(Take(d, Day).1, Hour, 24);
    TakeBelow(Take(Take(d, Day).1, Hour).1, Minute, 60);
  }

  lemma SecondsInRange(d: int)
    requires 0 <= d < MONTH
    ensures var s := Digits(d);
            |s| == 4 && 0 <= s[0] < 30 && 0 <= s[1] < 24 && 0 <= s[2] < 60 && 0 <= s[3] <= 60
  {
    DayHourMinuteInRange(d, 30);
  }

  lemma MinutesInRange(d: int)
    requires MONTH <= d < YEAR
    ensures var s := Digits(d);
            && |s| == 4 && 1 <= s[0] <= 12 && 0 <= s[1] < 30 && 0 <= s[2] < 24 && 0 <= s[3] < 60
            && (s[0] == 12 ==> s[1] < 5)
  {
    var (months, left) := Take(d, Month);
    Split4(d, Month, Day, Hour, Minute);
    TakeBelow(d, Month, 13);
    DayHourMinuteInRange(left, if months == 12 then 5 else 30);
  }

  lemma HoursInRange(d: int)
    requires YEAR <= d
    ensures var s := Digits(d);
            |s| == 4 && 1 <= s[0] && 0 <= s[1] <= 12 && 0 <= s[2] < 30 && 0 <= s[3] < 24 && (s[1] == 12 ==> s[2] < 5)
  {
    var d0 := Take(d, Year).1;
    var (months, d1) := Take(d0, Month);
    Split4(d, Year, Month, Day, Hour);
    Split3(d0, Month, Day, Hour);
    Thresholds(d);
    TakeBelow(d0, Month, 13);
    TakeBelow(d1, Day, if months == 12 then 5 else 30);
    TakeBelow(Take(d1, Day).1, Hour, 24);
  }

  // ---- order ----

  ghost predicate LexLeq(a: seq<int>, b: seq<int>)
    requires |a| == |b|
  {
    a == [] || a[0] < b[0] || (a[0] == b[0] && LexLeq(a[1..], b[1..]))
  }

  lemma TakeMonotone(d: int, e: int, u: Unit)
    requires d <= e
    ensures Take(d, u).0 <= Take(e, u).0
    ensures Take(d, u).0 == Take(e, u).0 ==> Take(e, u).1 - Take(d, u).1 == e - d
  {
  }

  lemma {:induction false} SplitMonotone(d: int, e: int, us: seq<Unit>, x: int, y: int)
    requires d <= e
    requires Split(d, us) == Split(e, us) ==> x <= y
    ensures LexLeq(Split(d, us) + [x], Split(e, us) + [y])
    decreases us
  {
    var a, b := Split(d, us) + [x], Split(e, us) + [y];
    if us != [] {
      TakeMonotone(d, e, us[0]);
      var a', b' := Split(Take(d, us[0]).1, us[1..]) + [x], Split(Take(e, us[0]).1, us[1..]) + [y];
      assert a == [Take(d, us[0]).0] + a' && b == [Take(e, us[0]).0] + b';
      assert a[1..] == a' && b[1..] == b';
      if a[0] == b[0] {
        assert a' == b' ==> a == b;
        SplitMonotone(Take(d, us[0]).1, Take(e, us[0]).1, us[1..], x, y);
      }
    }
  }

  lemma {:induction false} RestMonotone(d: int, e: int, us: seq<Unit>)
    requires d <= e && Split(d, us) == Split(e, us)
    ensures Rest(d, us) <= Rest(e, us)
    decreases us
  {
    if us != [] {
      TakeMonotone(d, e, us[0]);
      assert Split(d, us)[1..] == Split(e, us)[1..];
      assert Split(d, us)[0] == Split(e, us)[0];
      RestMonotone(Take(d, us[0]).1, Take(e, us[0]).1, us[1..]);
    }
  }

  lemma {:induction false} LexDropLast(a: seq<int>, b: seq<int>)
    requires |a| == |b| > 0 && LexLeq(a + [0], b + [0])
    ensures LexLeq(a, b)
  {
    if a[0] == b[0] {
      assert (a + [0])[1..] == a[1..] + [0] && (b + [0])[1..] == b[1..] + [0];
      if |a| > 1 {
        LexDropLast(a[1..], b[1..]);
      }
    }
  }

  /** Within a branch longer durations never show smaller digits. */
  lemma OrderPreserved(d: int, e: int)
    requires 0 <= d <= e && BranchOf(d) == BranchOf(e)
    ensures |Digits(d)| == |Digits(e)| && LexLeq(Digits(d), Digits(e))
  {
    match BranchOf(d)
    case ToSeconds =>
      var us := [Day, Hour, Minute];
      if Split(d, us) == Split(e, us) {
        RestMonotone(d, e, us);
      }
      SplitMonotone(d, e, us, Digits(d)[3], Digits(e)[3]);
    case ToMinutes =>
      SplitMonotone(d, e, [Month, Day, Hour, Minute], 0, 0);
      LexDropLast(Digits(d), Digits(e));
    case ToHours =>
      SplitMonotone(d, e, [Year, Month, Day, Hour], 0, 0);
      LexDropLast(Digits(d), Digits(e));
  }

  lemma {:induction false} LexAntisymmetric(a: seq<int>, b: seq<int>)
    requires |a| == |b| && LexLeq(a, b) && LexLeq(b, a)
    ensures a == b
  {
    if a != [] {
      LexAntisymmetric(a[1..], b[1..]);
      assert a == [a[0]] + a[1..] && b == [b[0]] + b[1..];
    }
  }

  /** Conversely, smaller digits mean a shorter duration. */
  lemma SmallerDigitsShorter(d: int, e: int)
    requires 0 <= d && 0 <= e && BranchOf(d) == BranchOf(e) && |Digits(d)| == |Digits(e)|
    requires LexLeq(Digits(d), Digits(e)) && Digits(d) != Digits(e)
    ensures d < e
  {
    if e <= d {
      OrderPreserved(e, d);
      LexAntisymmetric(Digits(d), Digits(e));
    }
  }
}
