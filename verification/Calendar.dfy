/** Closed-form Gregorian day count, against the calendar walked one day at a time. */
module Calendar {
  import opened Common

  datatype Date = Date(y: int, m: int, d: int)

  predicate IsLeap(y: int) {
    y % 4 == 0 && (y % 100 != 0 || y % 400 == 0)
  }

  function DaysInMonth(y: int, m: int): int {
    if m == 2 then (if IsLeap(y) then 29 else 28)
    else if m == 4 || m == 6 || m == 9 || m == 11 then 30
    else 31
  }

  predicate Valid(t: Date) {
    1 <= t.m <= 12 && 1 <= t.d <= DaysInMonth(t.y, t.m)
  }

  /** The day after t in the proleptic Gregorian calendar. */
  function Next(t: Date): (n: Date)
    requires Valid(t)
    ensures Valid(n)
  {
    if t.d < DaysInMonth(t.y, t.m) then Date(t.y, t.m, t.d + 1)
    else if t.m < 12 then Date(t.y, t.m + 1, 1)
    else Date(t.y + 1, 1, 1)
  }

  predicate Before(a: Date, b: Date) {
    a.y < b.y || (a.y == b.y && (a.m < b.m || (a.m == b.m && a.d < b.d)))
  }

  /** Days since 1970-01-01; Euclidean division throughout, as div_euclid and the non-negative operands give. */
  function DaysFromCivil(y0: int, m: int, d: int): int {
    var y := if m <= 2 then y0 - 1 else y0;
    var era := y / 400;
    var yoe := y - era * 400;
    var mp := (m + 9) % 12;
    var doy := (153 * mp + 2) / 5 + d - 1;
    var doe := yoe * 365 + yoe / 4 - yoe / 100 + doy;
    era * 146_097 + doe - 719_468
  }

  function Count(t: Date): int {
    DaysFromCivil(t.y, t.m, t.d)
  }

  /** Days before 1 March of year y, counted from 1 March of year 0. */
  function MarchDays(y: int): int {
    var era := y / 400;
    era * 146_097 + YearDays(y - era * 400)
  }

  /** Days before 1 March of year k of an era. */
  function YearDays(k: int): int {
    k * 365 + k / 4 - k / 100
  }

  /** Days before the first of month m, counted from 1 March. */
  function MonthDays(m: int): int {
    (153 * ((m + 9) % 12) + 2) / 5
  }

  lemma YearStep(k: int)
    requires 0 <= k
    ensures YearDays(k + 1) == YearDays(k) + 365 + (if (k + 1) % 4 == 0 then 1 else 0) - (if (k + 1) % 100 == 0 then 1 else 0)
  {
    DivStep(k, 4);
    DivStep(k, 100);
  }

  lemma DivStep(k: int, m: int)
    requires 0 <= k && 1 < m
    ensures (k + 1) / m == k / m + (if (k + 1) % m == 0 then 1 else 0)
  {
    var q, r := k / m, k % m;
    assert k == q * m + r;
    if r == m - 1 {
      assert k + 1 == (q + 1) * m + 0;
      ModAt(k + 1, m, q + 1, 0);
    } else {
      ModAt(k + 1, m, q, r + 1);
    }
  }

  lemma EraRemainder(era: int, k: int)
    requires 0 <= k < 400
    ensures (era * 400 + k) / 400 == era
    ensures (era * 400 + k) % 4 == k % 4 && (era * 400 + k) % 100 == k % 100 && (era * 400 + k) % 400 == k
  {
    ModAt(era * 400 + k, 400, era, k);
    ModPlusMultiple(era * 100, 4, k);
    ModPlusMultiple(era * 4, 100, k);
  }

  /** Leap years recur with the era. */
  lemma LeapInEra(era: int, k: int)
    requires 0 <= k <= 400
    ensures IsLeap(era * 400 + k) <==> k % 4 == 0 && (k % 100 != 0 || k == 0 || k == 400)
  {
    if k == 400 {
      EraRemainder(era + 1, 0);
      assert era * 400 + k == (era + 1) * 400 + 0;
    } else {
      EraRemainder(era, k);
    }
  }

  /** From one 1 March to the next there are 365 days, or 366 across a leap February. */
  lemma MarchStep(y: int)
    ensures MarchDays(y + 1) == MarchDays(y) + (if IsLeap(y + 1) then 366 else 365)
  {
    var era, k := y / 400, y - y / 400 * 400;
    YearStep(k);
    LeapInEra(era, k + 1);
    hide IsLeap;
    assert era * 400 + (k + 1) == y + 1;
    if k == 399 {
      EraRemainder(era + 1, 0);
      assert (era + 1) * 400 + 0 == y + 1;
    } else {
      EraRemainder(era, k + 1);
    }
  }

  lemma MonthStep(y: int, m: int)
    requires 1 <= m <= 12 && m != 2
    ensures MonthDays(m) + DaysInMonth(y, m) == MonthDays(if m < 12 then m + 1 else 1)
  {
    if m == 1 {} else if m == 3 {} else if m == 4 {} else if m == 5 {} else if m == 6 {} else if m == 7 {
    } else if m == 8 {} else if m == 9 {} else if m == 10 {} else if m == 11 {} else {}
  }

  lemma FebruaryOffset()
    ensures MonthDays(2) == 337 && MonthDays(3) == 0
  {
  }

  lemma Epoch()
    ensures Count(Date(1970, 1, 1)) == 0
  {
  }

  lemma CountSplits(t: Date)
    ensures Count(t) == MarchDays(if t.m <= 2 then t.y - 1 else t.y) + MonthDays(t.m) + t.d - 1 - 719_468
  {
  }

  /** The closed form is 0 at the epoch and advances by exactly one per calendar day. */
  lemma NextDayCounts(t: Date)
    requires Valid(t)
    ensures Count(Next(t)) == Count(t) + 1
    ensures Count(Date(1970, 1, 1)) == 0
  {
    hide Count, MarchDays, MonthDays;
    Epoch();
    CountSplits(t);
    CountSplits(Next(t));
    if t.d == DaysInMonth(t.y, t.m) {
      if t.m == 2 {
        MarchStep(t.y - 1);
        FebruaryOffset();
      } else {
        MonthStep(t.y, t.m);
      }
    }
  }

  /** Walk n days forward. */
  function Walk(t: Date, n: nat): (r: Date)
    requires Valid(t)
    ensures Valid(r)
    decreases n
  {
    if n == 0 then t else Next(Walk(t, n - 1))
  }

  lemma {:induction false} WalkCounts(t: Date, n: nat)
    requires Valid(t)
    ensures Count(Walk(t, n)) == Count(t) + n
    decreases n
  {
    if n > 0 {
      hide Count;
      WalkCounts(t, n - 1);
      NextDayCounts(Walk(t, n - 1));
    }
  }

  /** Every later date is reached by walking. */
  lemma {:induction false} Reaches(a: Date, b: Date) returns (n: nat)
    requires Valid(a) && Valid(b) && Before(a, b)
    ensures n > 0 && Walk(a, n) == b
    decreases b.y - a.y, b.m, b.d
  {
    // Step back one day from b.
    var p :=
      if b.d > 1 then Date(b.y, b.m, b.d - 1)
      else if b.m > 1 then Date(b.y, b.m - 1, DaysInMonth(b.y, b.m - 1))
      else Date(b.y - 1, 12, 31);
    assert Valid(p) && Next(p) == b;
    if p == a {
      assert Walk(a, 0) == a;
      n := 1;
    } else {
      var k := Reaches(a, p);
      n := k + 1;
    }
  }

  /** The count is the true distance: it orders valid dates exactly as the calendar does. */
  lemma CountIsOrderIsomorphism(a: Date, b: Date)
    requires Valid(a) && Valid(b)
    ensures Before(a, b) <==> Count(a) < Count(b)
    ensures a == b <==> Count(a) == Count(b)
  {
    if Before(a, b) {
      var n := Reaches(a, b);
      WalkCounts(a, n);
    } else if a != b {
      var n := Reaches(b, a);
      WalkCounts(b, n);
    }
  }
}
