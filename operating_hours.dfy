/** Exam periods and the hours the booking grid shows for a day
    (src/lib/constants.ts). */
module OperatingHours {
  import opened Domain

  /** A configured exam period: its first and last day as yyyymmdd keys. */
  datatype Period = Period(start: nat, end: nat)

  const ExamPeriods: seq<Period> := [
    Period(20251206, 20251219), // final exams, fall 2025
    Period(20260412, 20260424), // midterms, spring 2026
    Period(20260607, 20260619), // final exams, spring 2026
    Period(20261011, 20261023), // midterms, fall 2026
    Period(20261206, 20261218)  // final exams, fall 2026
  ]

  /** isWithinInterval(d, {start, end}) with both bounds parsed from a bare
      date, i.e. local midnight: every moment of the first day is inside, but
      of the last day only its midnight. */
  predicate WithinPeriod(d: DateTime, p: Period) {
    p.start <= DayKey(d) && (DayKey(d) < p.end || (DayKey(d) == p.end && d.msOfDay == 0))
  }

  /** Array#some over a list of periods. */
  predicate AnyPeriodContains(ps: seq<Period>, d: DateTime)
    decreases |ps|
  {
    ps != [] && (WithinPeriod(d, ps[0]) || AnyPeriodContains(ps[1..], d))
  }

  /** isExamPeriod. */
  predicate IsExamPeriod(d: DateTime) {
    AnyPeriodContains(ExamPeriods, d)
  }

  lemma {:induction false} AnyPeriodContainsIff(ps: seq<Period>, d: DateTime)
    ensures AnyPeriodContains(ps, d) <==> exists i :: 0 <= i < |ps| && WithinPeriod(d, ps[i])
  {
    if ps != [] {
      AnyPeriodContainsIff(ps[1..], d);
      if exists i :: 0 <= i < |ps| && WithinPeriod(d, ps[i]) {
        var i :| 0 <= i < |ps| && WithinPeriod(d, ps[i]);
        if i > 0 {
          assert WithinPeriod(d, ps[1..][i - 1]);
        }
      }
    }
  }

  /** A date is in the exam period iff some configured period contains it. */
  lemma ExamPeriodIff(d: DateTime)
    ensures IsExamPeriod(d) <==> exists i :: 0 <= i < |ExamPeriods| && WithinPeriod(d, ExamPeriods[i])
  {
    AnyPeriodContainsIff(ExamPeriods, d);
  }

  /** Every period starts no later than it ends, and the periods are listed in
      ascending order without overlapping. */
  lemma ExamPeriodsOrdered()
    ensures forall i :: 0 <= i < |ExamPeriods| ==> ExamPeriods[i].start <= ExamPeriods[i].end
    ensures forall i, j :: 0 <= i < j < |ExamPeriods| ==> ExamPeriods[i].end < ExamPeriods[j].start
  {
  }

  /** Later than midnight on the last day of a period, the day is not in any
      exam period (the next period starts strictly later). */
  lemma LastDayAfterMidnightIsOutside(d: DateTime, k: nat)
    requires k < |ExamPeriods| && DayKey(d) == ExamPeriods[k].end && d.msOfDay > 0
    ensures !IsExamPeriod(d)
  {
    ExamPeriodIff(d);
    ExamPeriodsOrdered();
    forall i | 0 <= i < |ExamPeriods| ensures !WithinPeriod(d, ExamPeriods[i]) {
      if i < k {
        assert ExamPeriods[i].end < ExamPeriods[k].start;
      } else if i > k {
        assert ExamPeriods[k].end < ExamPeriods[i].start;
      }
    }
  }

  /** Any moment of a day from the first to the day before the last of a period
      is in the exam period, as is the last day's midnight. */
  lemma InsidePeriod(d: DateTime, k: nat)
    requires k < |ExamPeriods| && WithinPeriod(d, ExamPeriods[k])
    ensures IsExamPeriod(d)
  {
    ExamPeriodIff(d);
  }

  /** getOperatingHours: 0 (shown as 24) and 1, then 9 to 23 in an exam
      period; 8 to 23 otherwise. */
  function OperatingHoursOf(d: DateTime): (hours: seq<nat>)
    ensures IsExamPeriod(d) ==> |hours| == 17 && hours[0] == 0 && hours[1] == 1
    ensures IsExamPeriod(d) ==> forall i :: 2 <= i < 17 ==> hours[i] == i + 7
    ensures !IsExamPeriod(d) ==> |hours| == 16 && forall i :: 0 <= i < 16 ==> hours[i] == i + 8
  {
    if IsExamPeriod(d) then [0, 1] + seq(15, i requires 0 <= i < 15 => i + 9)
    else seq(16, i requires 0 <= i < 16 => i + 8)
  }

  /** Every hour is a clock hour and the list strictly increases, so no hour
      appears twice. */
  lemma OperatingHoursIncreasing(d: DateTime)
    ensures forall i :: 0 <= i < |OperatingHoursOf(d)| ==> OperatingHoursOf(d)[i] < 24
    ensures forall i, j :: 0 <= i < j < |OperatingHoursOf(d)| ==> OperatingHoursOf(d)[i] < OperatingHoursOf(d)[j]
  {
  }

  /** Which hours are open, as a set. */
  lemma OperatingHoursMembers(d: DateTime, h: nat)
    ensures IsExamPeriod(d) ==> (h in OperatingHoursOf(d) <==> h <= 1 || 9 <= h <= 23)
    ensures !IsExamPeriod(d) ==> (h in OperatingHoursOf(d) <==> 8 <= h <= 23)
  {
    var hours := OperatingHoursOf(d);
    if IsExamPeriod(d) {
      if 9 <= h <= 23 { assert hours[h - 7] == h; }
    } else {
      if 8 <= h <= 23 { assert hours[h - 8] == h; }
    }
  }
}
