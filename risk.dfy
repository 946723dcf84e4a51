/** Risk banding from the PHQ-9 and GAD-7 scores: the three KPI counts in the header and the
    critical-student list of the student-care page. The three bands are independent
    predicates, so a student can be both moderate and critical. */
module Risk {
  import opened Records
  import opened Lists

  predicate IsHealthy(s: Student) {
    s.phq < 10 && s.gad < 8
  }

  predicate IsModerate(s: Student) {
    (s.phq >= 10 && s.phq < 20) || (s.gad >= 8 && s.gad < 15)
  }

  predicate IsCritical(s: Student) {
    s.phq >= 20 || s.gad >= 15
  }

  /** Counted under both MODERATE and CRITICAL. */
  predicate IsModerateAndCritical(s: Student) {
    IsModerate(s) && IsCritical(s)
  }

  datatype RiskCounts = RiskCounts(healthy: nat, moderate: nat, critical: nat)

  /** The HEALTHY, MODERATE and CRITICAL numbers shown in the header. */
  function HeaderCounts(students: seq<Student>): (r: RiskCounts)
    ensures r.healthy <= |students| && r.moderate <= |students| && r.critical <= |students|
    ensures r.healthy + r.moderate <= |students| && r.healthy + r.critical <= |students|
    ensures r.healthy + r.moderate + r.critical >= |students|
  {
    CountIdentity(students);
    RiskCounts(|Keep(students, IsHealthy)|, |Keep(students, IsModerate)|, |Keep(students, IsCritical)|)
  }

  /** The students listed under "Critical Students": in roster order, exactly those the
      header counts as critical. */
  function CriticalStudents(students: seq<Student>): (r: seq<Student>)
    ensures IsSubsequence(r, students)
    ensures forall s :: s in r <==> s in students && IsCritical(s)
    ensures |r| == HeaderCounts(students).critical
  {
    Keep(students, IsCritical)
  }

  /** A single student is healthy exactly when neither of the other bands applies, and every
      student falls in at least one band. */
  lemma BandsOfOneStudent(s: Student)
    ensures IsHealthy(s) <==> !IsModerate(s) && !IsCritical(s)
    ensures IsHealthy(s) || IsModerate(s) || IsCritical(s)
  {
  }

  /** The moderate and critical bands overlap exactly on these score pairs; phq = 25 with
      gad = 10 is one of them. */
  lemma ModerateCriticalOverlap(s: Student)
    ensures IsModerateAndCritical(s) <==>
      (s.phq >= 20 && 8 <= s.gad < 15) || (s.gad >= 15 && 10 <= s.phq < 20)
    ensures s.phq == 25 && s.gad == 10 ==> IsModerateAndCritical(s)
  {
  }

  /** The three header counts add up to the number of students plus the number counted twice
      (moderate and critical at once); no student is counted in all three. */
  lemma {:induction false} CountIdentity(students: seq<Student>)
    ensures |Keep(students, IsHealthy)| + |Keep(students, IsModerate)| + |Keep(students, IsCritical)|
      == |students| + |Keep(students, IsModerateAndCritical)|
    ensures |Keep(students, IsModerateAndCritical)| <= |Keep(students, IsModerate)|
    ensures |Keep(students, IsModerateAndCritical)| <= |Keep(students, IsCritical)|
  {
    if students != [] {
      CountIdentity(students[1..]);
    }
  }

  /** The header counts partition the roster exactly when no student is both moderate and
      critical. */
  lemma CountsPartitionIff(students: seq<Student>)
    ensures HeaderCounts(students).healthy + HeaderCounts(students).moderate
      + HeaderCounts(students).critical == |students|
      <==> forall s :: s in students ==> !IsModerateAndCritical(s)
  {
    CountIdentity(students);
    if forall s :: s in students ==> !IsModerateAndCritical(s) {
      KeepNothing(students, IsModerateAndCritical);
    } else {
      var s :| s in students && IsModerateAndCritical(s);
      assert s in Keep(students, IsModerateAndCritical);
    }
  }
}
