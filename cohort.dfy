/** The dashboard's cohort filter: the students whose gender and semester match the two
    drop-down selections, where the selection "All" imposes no constraint. The semester
    drop-down yields text, so a student's numeric semester is compared as text. */
module Cohort {
  import opened Records
  import opened Lists
  import opened Decimal

  /** The wildcard value of both drop-downs. */
  const All: string := "All"

  /** The two drop-down values, as the selects deliver them (text). */
  datatype CohortFilter = CohortFilter(gender: string, semester: string)

  /** The filter callback: a gender mismatch or a semester-text mismatch rejects, unless the
      corresponding selection is "All". */
  predicate Admits(f: CohortFilter, s: Student) {
    && (f.gender != All ==> s.gender == f.gender)
    && (f.semester != All ==> IntToString(s.semester) == f.semester)
  }

  function Matcher(f: CohortFilter): Student -> bool {
    s => Admits(f, s)
  }

  /** The `filtered` cohort: an order-preserving selection of the roster. */
  function Filtered(students: seq<Student>, f: CohortFilter): (r: seq<Student>)
    ensures |r| <= |students|
    ensures IsSubsequence(r, students)
    ensures forall s :: s in r <==> s in students && Admits(f, s)
    ensures forall s :: multiset(r)[s] == if Admits(f, s) then multiset(students)[s] else 0
  {
    Keep(students, Matcher(f))
  }

  /** With both selections at "All" the cohort is the whole roster, in order. */
  lemma NoFilterIsIdentity(students: seq<Student>)
    ensures Filtered(students, CohortFilter(All, All)) == students
  {
    KeepEverything(students, Matcher(CohortFilter(All, All)));
  }

  /** An empty roster gives an empty cohort, whatever the selections. */
  lemma EmptyRosterEmptyCohort(f: CohortFilter)
    ensures Filtered([], f) == []
  {
  }

  /** Selecting the semester option `String(k)` keeps exactly the students of semester `k`
      (and of the selected gender, unless that is "All"). */
  lemma SemesterOptionSelects(students: seq<Student>, gender: string, k: int)
    ensures forall s :: s in Filtered(students, CohortFilter(gender, IntToString(k))) <==>
      s in students && (gender != All ==> s.gender == gender) && s.semester == k
  {
    IntToStringIsNotAll(k);
    forall s | s in students
      ensures IntToString(s.semester) == IntToString(k) <==> s.semester == k
    {
      IntToStringInjective(s.semester, k);
    }
  }
}
