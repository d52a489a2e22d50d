/** Work-day arithmetic on dates as day ordinals; ordinal 1 is a Monday. */
module Workdays {

  /** 0 is Monday, 6 is Sunday. */
  function Weekday(d: int): nat {
    (d + 6) % 7
  }

  predicate IsWorkday(d: int) {
    Weekday(d) < 5
  }

  /** The work days after `a` up to and including `b`. */
  function CountWorkdays(a: int, b: int): nat
    decreases b - a
  {
    if b <= a then 0 else CountWorkdays(a, b - 1) + if IsWorkday(b) then 1 else 0
  }

  /** Days until the next work day, today excluded. */
  function DaysToWorkday(d: int): nat {
    if Weekday(d) < 4 || Weekday(d) == 6 then 1 else 6 - Weekday(d) + 1
  }

  lemma StepTowardsWorkday(d: int)
    ensures IsWorkday(d + 1) <==> DaysToWorkday(d) == 1
    ensures !IsWorkday(d + 1) ==> DaysToWorkday(d + 1) < DaysToWorkday(d)
  {
    assert Weekday(d + 1) == if Weekday(d) == 6 then 0 else Weekday(d) + 1;
  }

  /**
   `_workday`: one day at a time. The loop ends, and its result is the work day
   with exactly `days` work days after the start up to itself.
   */
  method Workday(start: int, days: int) returns (d: int)
    ensures days <= 0 ==> d == start
    ensures days > 0 ==> start < d && IsWorkday(d) && CountWorkdays(start, d) == days
    ensures days > 0 ==> d == ClosedForm(start, days)
  {
    d := start;
    var remaining := days;
    while remaining > 0
      invariant start <= d && remaining <= days
      invariant days > 0 ==> 0 <= remaining && CountWorkdays(start, d) == days - remaining
      invariant days <= 0 ==> d == start
      invariant days > 0 && remaining == 0 ==> start < d && IsWorkday(d)
      decreases remaining, DaysToWorkday(d)
    {
      StepTowardsWorkday(d);
      d := d + 1;
      if Weekday(d) < 5 {
        remaining := remaining - 1;
      }
    }
    if days > 0 {
      ClosedFormCounts(start, days);
      WorkdayIsUnique(start, d, ClosedForm(start, days));
    }
  }

  lemma {:induction false} CountGrows(a: int, b: int, c: int)
    requires a <= b <= c
    ensures CountWorkdays(a, b) <= CountWorkdays(a, c)
    ensures b < c && IsWorkday(c) ==> CountWorkdays(a, b) < CountWorkdays(a, c)
    decreases c - b
  {
    if b < c {
      CountGrows(a, b, c - 1);
    }
  }

  /** Only one work day has a given number of work days behind it. */
  lemma {:induction false} WorkdayIsUnique(a: int, b: int, c: int)
    requires a < b && a < c && IsWorkday(b) && IsWorkday(c) && CountWorkdays(a, b) == CountWorkdays(a, c)
    ensures b == c
  {
    if b < c {
      CountGrows(a, b, c);
    } else {
      CountGrows(a, c, b);
    }
  }

  /** The last work day of the start's week not after it, counted from Monday. */
  function WeekOffset(start: int): nat {
    if Weekday(start) < 5 then Weekday(start) else 4
  }

  /** The Monday of the start's week, plus whole weeks of five, plus the rest. */
  function ClosedForm(start: int, days: nat): int {
    start - Weekday(start) + (WeekOffset(start) + days) / 5 * 7 + (WeekOffset(start) + days) % 5
  }

  lemma ClosedFormWeekday(start: int, days: nat)
    ensures Weekday(ClosedForm(start, days)) == (WeekOffset(start) + days) % 5
  {
    var weeks, rest := (WeekOffset(start) + days) / 5, (WeekOffset(start) + days) % 5;
    var monday := start - Weekday(start);
    assert (monday + 6) % 7 == 0;
    assert (monday + 6 + weeks * 7 + rest) % 7 == rest;
  }

  /** The next work day is the first: it adds one to the count. */
  lemma NextWorkdayCounts(a: int, d: int)
    requires a <= d
    ensures IsWorkday(d + DaysToWorkday(d))
    ensures CountWorkdays(a, d + DaysToWorkday(d)) == CountWorkdays(a, d) + 1
  {
    StepTowardsWorkday(d);
    StepTowardsWorkday(d + 1);
    StepTowardsWorkday(d + 2);
    assert CountWorkdays(a, d + 1) == CountWorkdays(a, d) + if IsWorkday(d + 1) then 1 else 0;
    if DaysToWorkday(d) > 1 {
      assert CountWorkdays(a, d + 2) == CountWorkdays(a, d + 1) + if IsWorkday(d + 2) then 1 else 0;
      assert CountWorkdays(a, d + 3) == CountWorkdays(a, d + 2) + if IsWorkday(d + 3) then 1 else 0;
    }
  }

  lemma FirstStep(start: int)
    ensures ClosedForm(start, 1) == start + DaysToWorkday(start)
  {
  }

  lemma DivStep(n: nat)
    ensures (n + 1) / 5 * 7 + (n + 1) % 5 == n / 5 * 7 + n % 5 + if n % 5 == 4 then 3 else 1
  {
  }

  lemma LaterStep(start: int, days: nat)
    ensures ClosedForm(start, days + 1) == ClosedForm(start, days) + DaysToWorkday(ClosedForm(start, days))
  {
    ClosedFormWeekday(start, days);
    DivStep(WeekOffset(start) + days);
  }

  lemma {:induction false} ClosedFormCounts(start: int, days: nat)
    requires days > 0
    ensures start < ClosedForm(start, days) && IsWorkday(ClosedForm(start, days))
    ensures CountWorkdays(start, ClosedForm(start, days)) == days
  {
    if days == 1 {
      FirstStep(start);
      NextWorkdayCounts(start, start);
    } else {
      ClosedFormCounts(start, days - 1);
      LaterStep(start, days - 1);
      NextWorkdayCounts(start, ClosedForm(start, days - 1));
    }
  }
}
