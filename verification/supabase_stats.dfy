/**
 * The aggregate statistics the Supabase client computes over the students it
 * fetched: quintile-group counts, risk-level counts and the mean general
 * average. The fetch itself is a parameter (the list `get_students` returned;
 * it returns [] on a query error).
 */
module SupabaseStats {
  import opened Py
  import opened Text
  import opened Records
  import RC = RiskCalculator

  // ----- quintile distribution -----

  datatype QuintilBucket = Q1Q2 | Q3 | Q4Q5

  /** The bucket of a student's group text, checked in the order bajo, medio, alto/acomodado; None when none matches. */
  function BucketOf(s: Student): Option<QuintilBucket> {
    var g := Lower(StrOrEmpty(s.quintilAgrupado));
    if Contains(g, "bajo") then Some(Q1Q2)
    else if Contains(g, "medio") then Some(Q3)
    else if Contains(g, "alto") || Contains(g, "acomodado") then Some(Q4Q5)
    else None
  }

  function CountBucket(students: seq<Student>, b: Option<QuintilBucket>): (n: nat)
    ensures n <= |students|
  {
    if students == [] then 0
    else CountBucket(students[..|students| - 1], b) + if BucketOf(students[|students| - 1]) == b then 1 else 0
  }

  datatype QuintilDistribution = QuintilDistribution(q1q2: nat, q3: nat, q4q5: nat)

  /** `_calculate_quintil_distribution`. */
  method CalculateQuintilDistribution(students: seq<Student>) returns (d: QuintilDistribution)
    ensures d.q1q2 == CountBucket(students, Some(Q1Q2))
    ensures d.q3 == CountBucket(students, Some(Q3))
    ensures d.q4q5 == CountBucket(students, Some(Q4Q5))
  {
    d := QuintilDistribution(0, 0, 0);
    var i := 0;
    while i < |students|
      invariant 0 <= i <= |students|
      invariant d.q1q2 == CountBucket(students[..i], Some(Q1Q2))
      invariant d.q3 == CountBucket(students[..i], Some(Q3))
      invariant d.q4q5 == CountBucket(students[..i], Some(Q4Q5))
    {
      assert students[..i + 1][..i] == students[..i];
      var g := Lower(StrOrEmpty(students[i].quintilAgrupado));
      if Contains(g, "bajo") {
        d := d.(q1q2 := d.q1q2 + 1);
      } else if Contains(g, "medio") {
        d := d.(q3 := d.q3 + 1);
      } else if Contains(g, "alto") || Contains(g, "acomodado") {
        d := d.(q4q5 := d.q4q5 + 1);
      }
      i := i + 1;
    }
    assert students[..i] == students;
  }

  /**
   * Every student falls in exactly one bucket or in none, so the three
   * counts and the unclassified students add up to the total.
   */
  lemma {:induction false} BucketsPartition(students: seq<Student>)
    ensures CountBucket(students, Some(Q1Q2)) + CountBucket(students, Some(Q3))
            + CountBucket(students, Some(Q4Q5)) + CountBucket(students, None) == |students|
  {
    if students != [] {
      BucketsPartition(students[..|students| - 1]);
    }
  }

  // ----- risk distribution -----

  function CountLevel(students: seq<Student>, l: RC.RiskLevel): (n: nat)
    ensures n <= |students|
  {
    if students == [] then 0
    else CountLevel(students[..|students| - 1], l) + if RC.CalculateRiskScore(students[|students| - 1]).level == l then 1 else 0
  }

  datatype RiskDistribution = RiskDistribution(alto: nat, medio: nat, bajo: nat)

  /**
   * `_calculate_risk_distribution`. The score never raises (it returns its
   * fallback instead), so the `except` branch that counts "Bajo" is never
   * taken.
   */
  method CalculateRiskDistribution(students: seq<Student>) returns (d: RiskDistribution)
    ensures d.alto == CountLevel(students, RC.Alto)
    ensures d.medio == CountLevel(students, RC.Medio)
    ensures d.bajo == CountLevel(students, RC.Bajo)
  {
    d := RiskDistribution(0, 0, 0);
    var i := 0;
    while i < |students|
      invariant 0 <= i <= |students|
      invariant d.alto == CountLevel(students[..i], RC.Alto)
      invariant d.medio == CountLevel(students[..i], RC.Medio)
      invariant d.bajo == CountLevel(students[..i], RC.Bajo)
    {
      assert students[..i + 1][..i] == students[..i];
      var a := RC.CalculateRiskScore(students[i]);
      match a.level {
        case Alto => d := d.(alto := d.alto + 1);
        case Medio => d := d.(medio := d.medio + 1);
        case Bajo => d := d.(bajo := d.bajo + 1);
      }
      i := i + 1;
    }
    assert students[..i] == students;
  }

  /** Every student is counted at exactly one level. */
  lemma {:induction false} LevelsPartition(students: seq<Student>)
    ensures CountLevel(students, RC.Alto) + CountLevel(students, RC.Medio) + CountLevel(students, RC.Bajo) == |students|
  {
    if students != [] {
      LevelsPartition(students[..|students| - 1]);
    }
  }

  // ----- average grade -----

  /** The truthy `promedio_general` values, in order (None and 0 are skipped). */
  function GradedValues(students: seq<Student>): seq<real> {
    if students == [] then []
    else
      var p := students[|students| - 1].promedioGeneral;
      GradedValues(students[..|students| - 1]) + if p.Val? && p.v != 0.0 then [p.v] else []
  }

  function Sum(xs: seq<real>): real {
    if xs == [] then 0.0 else Sum(xs[..|xs| - 1]) + xs[|xs| - 1]
  }

  lemma SumAppend(xs: seq<real>, x: real)
    ensures Sum(xs + [x]) == Sum(xs) + x
  {
    assert (xs + [x])[..|xs|] == xs;
  }

  /** The mean of the graded values (before rounding to two decimals), 0.0 when there are none. */
  method CalculateAverageGrade(students: seq<Student>) returns (avg: real)
    ensures GradedValues(students) == [] ==> avg == 0.0
    ensures GradedValues(students) != [] ==> avg == Sum(GradedValues(students)) / |GradedValues(students)| as real
  {
    var total := 0.0;
    var count := 0;
    var i := 0;
    while i < |students|
      invariant 0 <= i <= |students|
      invariant total == Sum(GradedValues(students[..i]))
      invariant count == |GradedValues(students[..i])|
    {
      assert students[..i + 1][..i] == students[..i];
      var grade := students[i].promedioGeneral;
      assert GradedValues(students[..i + 1])
        == GradedValues(students[..i]) + if grade.Val? && grade.v != 0.0 then [grade.v] else [];
      if grade.Val? && grade.v != 0.0 {
        SumAppend(GradedValues(students[..i]), grade.v);
        total := total + grade.v;
        count := count + 1;
      } else {
        assert GradedValues(students[..i + 1]) == GradedValues(students[..i]);
      }
      i := i + 1;
    }
    assert students[..i] == students;
    avg := if count > 0 then total / count as real else 0.0;
  }

  lemma {:induction false} SumBounds(xs: seq<real>, lo: real, hi: real)
    requires forall k :: 0 <= k < |xs| ==> lo <= xs[k] <= hi
    ensures lo * |xs| as real <= Sum(xs) <= hi * |xs| as real
  {
    if xs != [] {
      SumBounds(xs[..|xs| - 1], lo, hi);
    }
  }

  /** The average lies between the lowest and the highest graded value. */
  lemma AverageWithinBounds(students: seq<Student>, lo: real, hi: real)
    requires GradedValues(students) != []
    requires forall k :: 0 <= k < |GradedValues(students)| ==> lo <= GradedValues(students)[k] <= hi
    ensures lo <= Sum(GradedValues(students)) / |GradedValues(students)| as real <= hi
  {
    MeanWithinBounds(GradedValues(students), lo, hi);
  }

  lemma MeanWithinBounds(xs: seq<real>, lo: real, hi: real)
    requires xs != []
    requires forall k :: 0 <= k < |xs| ==> lo <= xs[k] <= hi
    ensures lo <= Sum(xs) / |xs| as real <= hi
  {
    SumBounds(xs, lo, hi);
    MeanBetween(Sum(xs), |xs| as real, lo, hi);
  }

  lemma MeanBetween(total: real, n: real, lo: real, hi: real)
    requires n > 0.0
    requires lo * n <= total <= hi * n
    ensures lo <= total / n <= hi
  {
    var m := total / n;
    assert total == m * n;
  }

  // ----- institutional stats -----

  datatype InstitutionalStats = InstitutionalStats(
    totalStudents: nat, quintilDistribution: QuintilDistribution,
    riskDistribution: RiskDistribution, averageGrade: real)

  /** `get_institutional_stats` over the fetched students. */
  method GetInstitutionalStats(students: seq<Student>) returns (st: InstitutionalStats)
    ensures st.totalStudents == |students|
    ensures st.riskDistribution.alto + st.riskDistribution.medio + st.riskDistribution.bajo == st.totalStudents
    ensures st.quintilDistribution.q1q2 + st.quintilDistribution.q3 + st.quintilDistribution.q4q5 <= st.totalStudents
    ensures st.quintilDistribution.q1q2 == CountBucket(students, Some(Q1Q2))
    ensures st.quintilDistribution.q3 == CountBucket(students, Some(Q3))
    ensures st.quintilDistribution.q4q5 == CountBucket(students, Some(Q4Q5))
    ensures st.riskDistribution.alto == CountLevel(students, RC.Alto)
    ensures st.riskDistribution.medio == CountLevel(students, RC.Medio)
    ensures st.riskDistribution.bajo == CountLevel(students, RC.Bajo)
    ensures GradedValues(students) == [] ==> st.averageGrade == 0.0
    ensures GradedValues(students) != [] ==> st.averageGrade == Sum(GradedValues(students)) / |GradedValues(students)| as real
  {
    var q := CalculateQuintilDistribution(students);
    var r := CalculateRiskDistribution(students);
    var avg := CalculateAverageGrade(students);
    LevelsPartition(students);
    BucketsPartition(students);
    st := InstitutionalStats(|students|, q, r, avg);
  }
}
