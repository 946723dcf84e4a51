/** The mood distribution of the dashboard: a dictionary keyed by the text of each student's
    latest mood sample, seeded with the five buckets "-2" .. "2" at zero and incremented once
    per student. Incrementing a key that is not there stores NaN (JavaScript's `undefined++`),
    so a sample outside -2..2 leaves a stray key holding NaN. */
module MoodCounts {
  import opened Records
  import opened Decimal

  /** A dictionary value: a count, or the NaN that `undefined++` produces. */
  datatype Tally = Count(n: nat) | NaN

  /** The five keys the dictionary starts with. */
  const BucketKeys: set<string> := {"-2", "-1", "0", "1", "2"}

  const InitialTally: map<string, Tally> :=
    map["-2" := Count(0), "-1" := Count(0), "0" := Count(0), "1" := Count(0), "2" := Count(0)]

  /** JavaScript's `++` on a number or on NaN. */
  function Increment(t: Tally): (r: Tally)
    ensures r.Count? <==> t.Count?
    ensures t.Count? ==> r.n == t.n + 1
  {
    match t
    case Count(n) => Count(n + 1)
    case NaN => NaN
  }

  /** The student's most recent sample, or 0 when there is none. */
  function Latest(s: Student): int {
    if |s.mood7| == 0 then 0 else s.mood7[|s.mood7| - 1]
  }

  /** `map[key]++`. */
  function Bump(m: map<string, Tally>, key: string): (r: map<string, Tally>)
    ensures r.Keys == m.Keys + {key}
    ensures forall k :: k in m && k != key ==> r[k] == m[k]
  {
    m[key := if key in m then Increment(m[key]) else NaN]
  }

  /** The dictionary after the students of `cohort` were tallied in order. */
  function Distribution(cohort: seq<Student>): map<string, Tally>
  {
    if cohort == [] then InitialTally
    else Bump(Distribution(cohort[..|cohort| - 1]), IntToString(Latest(cohort[|cohort| - 1])))
  }

  /** How many students of the cohort have `v` as their latest sample (a reference count,
      independent of the dictionary). */
  function CountLatest(cohort: seq<Student>, v: int): (r: nat)
    ensures r <= |cohort|
  {
    if cohort == [] then 0
    else CountLatest(cohort[..|cohort| - 1], v) + (if Latest(cohort[|cohort| - 1]) == v then 1 else 0)
  }

  /** Tallying one more student bumps the key of its latest sample. */
  lemma DistributionStep(cohort: seq<Student>, i: nat, m: map<string, Tally>, key: string)
    requires i < |cohort| && m == Distribution(cohort[..i]) && key == IntToString(Latest(cohort[i]))
    ensures Bump(m, key) == Distribution(cohort[..i + 1])
  {
    assert cohort[..i + 1][..i] == cohort[..i];
  }

  predicate LatestInScale(cohort: seq<Student>) {
    forall s :: s in cohort ==> -2 <= Latest(s) <= 2
  }

  /** `moodCounts`: builds the dictionary in place, one student at a time. */
  method TallyMoods(cohort: seq<Student>) returns (counts: map<string, Tally>)
    ensures counts == Distribution(cohort)
  {
    counts := InitialTally;
    var i := 0;
    while i < |cohort|
      invariant 0 <= i <= |cohort|
      invariant counts == Distribution(cohort[..i])
    {
      var key := IntToString(Latest(cohort[i]));
      DistributionStep(cohort, i, counts, key);
      // The in-place `map[key]++` itself; `Bump` is the value-level specification it meets.
      counts := counts[key := if key in counts then Increment(counts[key]) else NaN];
      i := i + 1;
    }
    assert cohort[..|cohort|] == cohort;
  }

  /** The five bucket keys are always present and always hold a count, so every one of them
      can be read by the page. */
  lemma {:induction false} BucketsAlwaysPresent(cohort: seq<Student>)
    ensures forall k :: k in BucketKeys ==> k in Distribution(cohort) && Distribution(cohort)[k].Count?
  {
    if cohort != [] {
      BucketsAlwaysPresent(cohort[..|cohort| - 1]);
    }
  }

  /** When every latest sample lies in -2..2 the dictionary holds exactly the five buckets, and
      the bucket of `v` counts the students whose latest sample is `v`. */
  lemma {:induction false} DistributionCountsLatest(cohort: seq<Student>)
    requires LatestInScale(cohort)
    ensures Distribution(cohort) == map[
      "-2" := Count(CountLatest(cohort, -2)), "-1" := Count(CountLatest(cohort, -1)),
      "0" := Count(CountLatest(cohort, 0)), "1" := Count(CountLatest(cohort, 1)),
      "2" := Count(CountLatest(cohort, 2))]
  {
    if cohort != [] {
      var prefix := cohort[..|cohort| - 1];
      assert forall s :: s in prefix ==> s in cohort;
      assert cohort[|cohort| - 1] in cohort;
      DistributionCountsLatest(prefix);
      TallyLast(Distribution(prefix), cohort);
    }
  }

  /** Tallying the last student, whose sample lies in -2..2, adds one to its own bucket and
      leaves the other four. */
  lemma TallyLast(m: map<string, Tally>, cohort: seq<Student>)
    requires cohort != [] && -2 <= Latest(cohort[|cohort| - 1]) <= 2
    requires m == map[
      "-2" := Count(CountLatest(cohort[..|cohort| - 1], -2)), "-1" := Count(CountLatest(cohort[..|cohort| - 1], -1)),
      "0" := Count(CountLatest(cohort[..|cohort| - 1], 0)), "1" := Count(CountLatest(cohort[..|cohort| - 1], 1)),
      "2" := Count(CountLatest(cohort[..|cohort| - 1], 2))]
    ensures Bump(m, IntToString(Latest(cohort[|cohort| - 1]))) == map[
      "-2" := Count(CountLatest(cohort, -2)), "-1" := Count(CountLatest(cohort, -1)),
      "0" := Count(CountLatest(cohort, 0)), "1" := Count(CountLatest(cohort, 1)),
      "2" := Count(CountLatest(cohort, 2))]
  {
    var prefix := cohort[..|cohort| - 1];
    BumpBucket(m, Latest(cohort[|cohort| - 1]),
      CountLatest(prefix, -2), CountLatest(prefix, -1), CountLatest(prefix, 0), CountLatest(prefix, 1), CountLatest(prefix, 2),
      CountLatest(cohort, -2), CountLatest(cohort, -1), CountLatest(cohort, 0), CountLatest(cohort, 1), CountLatest(cohort, 2));
  }

  /** `map[String(x)]++` on the five buckets holding a .. e, with x in -2..2: the bucket of x goes
      up by one, the others keep their counts. */
  lemma BumpBucket(m: map<string, Tally>, x: int, a: nat, b: nat, c: nat, d: nat, e: nat,
                   a': nat, b': nat, c': nat, d': nat, e': nat)
    requires -2 <= x <= 2
    requires m == map["-2" := Count(a), "-1" := Count(b), "0" := Count(c), "1" := Count(d), "2" := Count(e)]
    requires a' == a + (if x == -2 then 1 else 0) && b' == b + (if x == -1 then 1 else 0)
    requires c' == c + (if x == 0 then 1 else 0) && d' == d + (if x == 1 then 1 else 0)
    requires e' == e + (if x == 2 then 1 else 0)
    ensures Bump(m, IntToString(x)) ==
      map["-2" := Count(a'), "-1" := Count(b'), "0" := Count(c'), "1" := Count(d'), "2" := Count(e')]
  {
    if x == -2 {
      assert IntToString(x) == "-2" && Bump(m, "-2") == m["-2" := Count(a')];
    } else if x == -1 {
      assert IntToString(x) == "-1" && Bump(m, "-1") == m["-1" := Count(b')];
    } else if x == 0 {
      assert IntToString(x) == "0" && Bump(m, "0") == m["0" := Count(c')];
    } else if x == 1 {
      assert IntToString(x) == "1" && Bump(m, "1") == m["1" := Count(d')];
    } else {
      assert IntToString(x) == "2" && Bump(m, "2") == m["2" := Count(e')];
    }
  }

  /** When every latest sample lies in -2..2 the five bucket counts add up to the cohort size. */
  lemma {:induction false} BucketsSumToCohort(cohort: seq<Student>)
    requires LatestInScale(cohort)
    ensures CountLatest(cohort, -2) + CountLatest(cohort, -1) + CountLatest(cohort, 0)
      + CountLatest(cohort, 1) + CountLatest(cohort, 2) == |cohort|
  {
    if cohort != [] {
      var prefix := cohort[..|cohort| - 1];
      assert forall s :: s in prefix ==> s in cohort;
      BucketsSumToCohort(prefix);
      assert cohort[|cohort| - 1] in cohort;
    }
  }

  /** A key outside the five buckets only ever holds NaN. */
  lemma {:induction false} StrayKeysHoldNaN(cohort: seq<Student>)
    ensures forall k :: k in Distribution(cohort) && k !in BucketKeys ==> Distribution(cohort)[k] == NaN
  {
    if cohort != [] {
      StrayKeysHoldNaN(cohort[..|cohort| - 1]);
    }
  }

  /** A student whose latest sample lies outside -2..2 leaves a key outside the five buckets,
      and that key holds NaN. */
  lemma {:induction false} OutOfScaleLeavesNaN(cohort: seq<Student>, j: nat)
    requires j < |cohort|
    requires Latest(cohort[j]) < -2 || Latest(cohort[j]) > 2
    ensures IntToString(Latest(cohort[j])) !in BucketKeys
    ensures IntToString(Latest(cohort[j])) in Distribution(cohort)
    ensures Distribution(cohort)[IntToString(Latest(cohort[j]))] == NaN
  {
    var key := IntToString(Latest(cohort[j]));
    SmallIntTexts();
    IntToStringInjective(Latest(cohort[j]), -2);
    IntToStringInjective(Latest(cohort[j]), -1);
    IntToStringInjective(Latest(cohort[j]), 0);
    IntToStringInjective(Latest(cohort[j]), 1);
    IntToStringInjective(Latest(cohort[j]), 2);
    var prefix := cohort[..|cohort| - 1];
    StrayKeysHoldNaN(prefix);
    if j < |cohort| - 1 {
      assert prefix[j] == cohort[j];
      OutOfScaleLeavesNaN(prefix, j);
    }
  }
}
