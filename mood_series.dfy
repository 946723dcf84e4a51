/** The weekly (Mon..Sun) and monthly (W1..W4) mood series of the dashboard. Point i is the
    mean over the whole cohort of each student's sample at index i, a missing sample read as 0,
    and 0 for an empty cohort. Means are exact reals; the two-decimal display rounding is not
    modelled. */
module MoodSeries {
  import opened Records
  import opened Decimal

  /** The sample array a series reads: `mood7` for the week, `moodMonth` for the month. */
  datatype Window = Week | Month

  /** One chart point: its period label and its mean mood. */
  datatype Point = Point(period: string, mood: real)

  const DayNames: seq<string> := ["Mon", "Tue", "Wed", "Thu", "Fri", "Sat", "Sun"]

  /** `s.mood7[i] ?? 0` or `s.moodMonth[i] ?? 0`. */
  function Sample(s: Student, w: Window, i: nat): real {
    match w
    case Week => if i < |s.mood7| then s.mood7[i] as real else 0.0
    case Month => if i < |s.moodMonth| then s.moodMonth[i] else 0.0
  }

  /** `moods.reduce((a, b) => a + b, 0)`: the samples at index i added in cohort order. */
  function SumAt(cohort: seq<Student>, w: Window, i: nat): real {
    if cohort == [] then 0.0
    else SumAt(cohort[..|cohort| - 1], w, i) + Sample(cohort[|cohort| - 1], w, i)
  }

  /** The mean of the samples at index i over the whole cohort; 0 for an empty cohort. */
  function MeanAt(cohort: seq<Student>, w: Window, i: nat): real {
    if |cohort| == 0 then 0.0 else SumAt(cohort, w, i) / (|cohort| as real)
  }

  /** `weekly`: seven points, labelled by weekday, holding the mean of each day. */
  function WeeklySeries(cohort: seq<Student>): (r: seq<Point>)
    ensures |r| == 7
    ensures forall i :: 0 <= i < 7 ==> r[i].period == DayNames[i] && r[i].mood == MeanAt(cohort, Week, i)
  {
    seq(7, i requires 0 <= i < 7 => Point(DayNames[i], MeanAt(cohort, Week, i)))
  }

  /** `monthly`: four points, labelled `W${i+1}`, holding the mean of each week. */
  function MonthlySeries(cohort: seq<Student>): (r: seq<Point>)
    ensures |r| == 4
    ensures forall i :: 0 <= i < 4 ==> r[i].period == "W" + IntToString(i + 1) && r[i].mood == MeanAt(cohort, Month, i)
  {
    seq(4, i requires 0 <= i < 4 => Point("W" + IntToString(i + 1), MeanAt(cohort, Month, i)))
  }

  function Labels(points: seq<Point>): seq<string> {
    seq(|points|, k requires 0 <= k < |points| => points[k].period)
  }

  /** Whatever the cohort, the weekly axis reads Mon..Sun and the monthly axis W1..W4. */
  lemma SeriesLabels(cohort: seq<Student>)
    ensures Labels(WeeklySeries(cohort)) == ["Mon", "Tue", "Wed", "Thu", "Fri", "Sat", "Sun"]
    ensures Labels(MonthlySeries(cohort)) == ["W1", "W2", "W3", "W4"]
  {
    SmallIntTexts();
    assert "W" + IntToString(1) == "W1" && "W" + IntToString(2) == "W2";
    assert "W" + IntToString(3) == "W3" && "W" + IntToString(4) == "W4";
  }

  /** An empty cohort gives a flat zero line in both series. */
  lemma EmptyCohortIsFlat()
    ensures forall p :: p in WeeklySeries([]) ==> p.mood == 0.0
    ensures forall p :: p in MonthlySeries([]) ==> p.mood == 0.0
  {
  }

  /** A cohort of one student shows that student's own samples, missing ones as 0. */
  lemma SingletonShowsOwnSamples(s: Student, w: Window, i: nat)
    ensures MeanAt([s], w, i) == Sample(s, w, i)
  {
    assert [s][..0] == [];
    assert SumAt([s], w, i) == Sample(s, w, i);
  }

  /** `x` added to itself `n` times. */
  function Repeat(x: real, n: nat): real {
    if n == 0 then 0.0 else Repeat(x, n - 1) + x
  }

  lemma {:induction false} RepeatIsProduct(x: real, n: nat)
    ensures Repeat(x, n) == x * (n as real)
  {
    if n > 0 {
      RepeatIsProduct(x, n - 1);
      assert x * (n as real) == x * ((n - 1) as real) + x;
    }
  }

  /** If every sample read lies in [lo, hi], their sum lies between |cohort| copies of lo and
      of hi. */
  lemma {:induction false} SumWithin(cohort: seq<Student>, w: Window, i: nat, lo: real, hi: real)
    requires forall s :: s in cohort ==> lo <= Sample(s, w, i) <= hi
    ensures Repeat(lo, |cohort|) <= SumAt(cohort, w, i) <= Repeat(hi, |cohort|)
  {
    if cohort != [] {
      var prefix := cohort[..|cohort| - 1];
      assert forall s :: s in prefix ==> s in cohort;
      assert cohort[|cohort| - 1] in cohort;
      SumWithin(prefix, w, i, lo, hi);
    }
  }

  /** The mean stays within any range [lo, hi] containing 0 that holds every sample read. */
  lemma MeanWithin(cohort: seq<Student>, w: Window, i: nat, lo: real, hi: real)
    requires lo <= 0.0 <= hi
    requires forall s :: s in cohort ==> lo <= Sample(s, w, i) <= hi
    ensures lo <= MeanAt(cohort, w, i) <= hi
  {
    if cohort != [] {
      SumWithin(cohort, w, i, lo, hi);
      RepeatIsProduct(lo, |cohort|);
      RepeatIsProduct(hi, |cohort|);
      QuotientWithin(SumAt(cohort, w, i), |cohort| as real, lo, hi);
    }
  }

  lemma QuotientWithin(sum: real, n: real, lo: real, hi: real)
    requires n > 0.0 && lo * n <= sum <= hi * n
    ensures lo <= sum / n <= hi
  {
  }

  /** With every `mood7` sample on the -2..2 scale, every weekly point is on that scale too. */
  lemma WeeklyWithinScale(cohort: seq<Student>)
    requires forall s, k :: s in cohort && 0 <= k < |s.mood7| ==> -2 <= s.mood7[k] <= 2
    ensures forall p :: p in WeeklySeries(cohort) ==> -2.0 <= p.mood <= 2.0
  {
    forall i | 0 <= i < 7
      ensures -2.0 <= MeanAt(cohort, Week, i) <= 2.0
    {
      MeanWithin(cohort, Week, i, -2.0, 2.0);
    }
  }

  /** With every `moodMonth` value in [-2, 2], every monthly point is in [-2, 2] too. */
  lemma MonthlyWithinScale(cohort: seq<Student>)
    requires forall s, k :: s in cohort && 0 <= k < |s.moodMonth| ==> -2.0 <= s.moodMonth[k] <= 2.0
    ensures forall p :: p in MonthlySeries(cohort) ==> -2.0 <= p.mood <= 2.0
  {
    forall i | 0 <= i < 4
      ensures -2.0 <= MeanAt(cohort, Month, i) <= 2.0
    {
      MeanWithin(cohort, Month, i, -2.0, 2.0);
    }
  }

  /** The denominator is the whole cohort: a student with no sample at index i still counts,
      pulling the mean toward 0 (mean * size is unchanged). */
  lemma MissingSampleDilutes(cohort: seq<Student>, s: Student, w: Window, i: nat)
    requires (w == Week && i >= |s.mood7|) || (w == Month && i >= |s.moodMonth|)
    ensures MeanAt(cohort + [s], w, i) * ((|cohort| + 1) as real) == MeanAt(cohort, w, i) * (|cohort| as real)
  {
  }
}
