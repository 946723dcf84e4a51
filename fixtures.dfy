/** The seed database the dashboard starts from, and what the modelled computations give on
    it. */
module Fixtures {
  import opened Records
  import opened Risk
  import opened Cohort
  import opened MoodCounts
  import opened MoodSeries

  const S1: Student := Student("S1", "ShadowTiger", "Male", 4, [-2, -1, 0, 1, 0, -1, -2], [-1.4, -1.6, -1.2, -1.7], 21, 17)
  const S2: Student := Student("S2", "SilentWolf", "Male", 6, [-1, -1, 0, 1, 1, 0, -1], [-0.8, -0.9, -0.6, -1.0], 13, 10)
  const S3: Student := Student("S3", "CalmSea", "Female", 2, [1, 1, 2, 1, 2, 1, 1], [1.0, 1.2, 1.1, 1.3], 2, 1)

  const InitialDb: Db := Db(
    [S1, S2, S3],
    [Counsellor("CNS101", "Asha Verma", "Female", "Active", Some(4)),
     Counsellor("CNS102", "Rohan Sen", "Male", "Active", Some(2))],
    [Post(1, "Anon1", "Exams stressing me out", ["#examStress"], false),
     Post(2, "Anon2", "Not sleeping properly", ["#sleep"], true)],
    [Trend("#examStress", -0.5), Trend("#sleep", -0.2)],
    [Appointment("Asha Verma", "ShadowTiger", "Critical", "2025-10-10", "15:30", "Call")],
    [])

  /** One student in each band: the header shows 1 / 1 / 1 and lists ShadowTiger as critical. */
  lemma SeedRiskBands()
    ensures HeaderCounts(InitialDb.students) == RiskCounts(1, 1, 1)
    ensures CriticalStudents(InitialDb.students) == [S1]
  {
    var c := InitialDb.students;
    assert c[1..] == [S2, S3] && [S2, S3][1..] == [S3] && [S3][1..] == [];
    assert Lists.Keep([S3], IsHealthy) == [S3] && Lists.Keep([S2, S3], IsHealthy) == [S3];
    assert Lists.Keep(c, IsHealthy) == [S3];
    assert Lists.Keep([S3], IsModerate) == [] && Lists.Keep([S2, S3], IsModerate) == [S2];
    assert Lists.Keep(c, IsModerate) == [S2];
    assert Lists.Keep([S3], IsCritical) == [] && Lists.Keep([S2, S3], IsCritical) == [];
    assert Lists.Keep(c, IsCritical) == [S1];
  }

  /** The latest samples are -2, -1 and 1, so those buckets hold one student each. */
  lemma SeedDistribution()
    ensures Distribution(InitialDb.students) ==
      map["-2" := Count(1), "-1" := Count(1), "0" := Count(0), "1" := Count(1), "2" := Count(0)]
  {
    var c := InitialDb.students;
    assert LatestInScale(c);
    DistributionCountsLatest(c);
    assert c[..2] == [S1, S2] && [S1, S2][..1] == [S1] && [S1][..0] == [];
    assert Latest(S1) == -2 && Latest(S2) == -1 && Latest(S3) == 1;
    forall v | -2 <= v <= 2
      ensures CountLatest(c, v) == (if v == -2 || v == -1 || v == 1 then 1 else 0)
    {
      assert CountLatest([S1], v) == (if v == -2 then 1 else 0);
      assert CountLatest([S1, S2], v) == (if v == -2 || v == -1 then 1 else 0);
    }
  }

  /** Selecting "Male" keeps ShadowTiger then SilentWolf. */
  lemma SeedMaleCohort()
    ensures Filtered(InitialDb.students, CohortFilter("Male", All)) == [S1, S2]
  {
    var c := InitialDb.students;
    var f := CohortFilter("Male", All);
    assert c[1..] == [S2, S3] && [S2, S3][1..] == [S3] && [S3][1..] == [];
    assert Admits(f, S1) && Admits(f, S2) && !Admits(f, S3);
    assert Lists.Keep([S3], Matcher(f)) == [];
    assert Lists.Keep([S2, S3], Matcher(f)) == [S2];
  }

  /** Monday's mean over the male students is (-2 + -1) / 2. */
  lemma SeedMaleMondayMean()
    ensures WeeklySeries(Filtered(InitialDb.students, CohortFilter("Male", All)))[0].mood == -1.5
  {
    SeedMaleCohort();
    assert [S1, S2][..1] == [S1] && [S1][..0] == [];
    assert SumAt([S1], Week, 0) == -2.0;
    assert SumAt([S1, S2], Week, 0) == -3.0;
  }
}
