# ALL IZZ WELL admin dashboard — a verified model of its computations

The dashboard keeps one in-memory database object (`db`: students, counsellors, anonymous
posts, trends, appointments, notifications) and derives everything it shows from it with small
list computations. This project models those computations in Dafny and proves what they
guarantee:

- **Risk banding** (`Risk`): the HEALTHY / MODERATE / CRITICAL header counts from the PHQ-9 and
  GAD-7 scores, and the critical-student list of the student-care page. The three bands are
  three independent predicates, exactly as written; the moderate band does not exclude critical
  students, so a student such as phq = 25, gad = 10 is counted twice. The model proves the exact
  identity `healthy + moderate + critical = students + (moderate and critical)`, so the counts
  cover every student and partition the roster exactly when no student is in both bands.
- **Cohort filter** (`Cohort`): the order-preserving gender/semester filter of the mood-analytics
  page, with "All" as the wildcard of both drop-downs. The semester is compared as text
  (`String(semester)`), modelled by `Decimal.IntToString`; its parse round trip makes it
  injective, so choosing the option `String(k)` selects exactly the semester-`k` students.
- **Mood distribution** (`MoodCounts`): the five-bucket tally of each student's latest `mood7`
  sample, built imperatively in a dictionary (`TallyMoods`, proved equal to the specification
  `Distribution`). It is modelled for every integer sample, not only -2..2: incrementing a key
  that is not there stores NaN, as `undefined++` does, so an out-of-scale sample leaves a stray
  key holding NaN; the five buckets are always present and, when every latest sample is in
  -2..2, they count the students by latest sample and sum to the cohort size.
- **Mood series** (`MoodSeries`): the 7-point weekly series (Mon..Sun, over `mood7`) and the
  4-point monthly series (W1..W4, over `moodMonth`). Each point is the mean over the whole
  cohort with a missing sample read as 0, and 0 for an empty cohort.
- **Record updates** (`DbUpdates`): remove a post, toggle its `reported` flag, deactivate a
  counsellor, create a counsellor, send a notification. Each builds a new `Db` value from the
  previous one, replacing one list and copying the rest (the `...prev` spread).
- **Seed data** (`Fixtures`): the initial database and what the computations give on it.

Files: `lists.dfy` (order-preserving selection, `Array.prototype.filter`), `decimal.dfy`
(`String(n)` for integers below 10^21 in magnitude, as plain decimal text), `records.dfy` (the
record types), `risk.dfy`, `cohort.dfy`, `mood_counts.dfy`, `mood_series.dfy`, `db_updates.dfy`,
`fixtures.dfy`.

The three risk bands are independent predicates, not a first-match classification; the cohort
filter has gender and semester drop-downs only, and it compares the semester as text.

## Model

| member | source | states |
|---|---|---|
| `Risk.HeaderCounts` | src/App.jsx:181-184 | each count is at most the number of students; healthy + moderate and healthy + critical never exceed it (healthy is disjoint from both); the three counts together are at least the number of students |
| `Risk.CriticalStudents` | src/App.jsx:362 | the critical list is the order-preserving subsequence of exactly the students with phq >= 20 or gad >= 15, and its length is the header's CRITICAL count |
| `Risk.BandsOfOneStudent` | src/App.jsx:182-184 | a student is healthy exactly when neither moderate nor critical, and always falls in at least one band |
| `Risk.ModerateCriticalOverlap` | src/App.jsx:183-184 | the moderate and critical bands overlap exactly when (phq >= 20 and 8 <= gad < 15) or (gad >= 15 and 10 <= phq < 20); phq = 25, gad = 10 is such a student |
| `Risk.CountIdentity` | src/App.jsx:182-184 | healthy + moderate + critical = number of students + number counted both moderate and critical, and the overlap is at most each of those two counts |
| `Risk.CountsPartitionIff` | src/App.jsx:182-184 | the three header counts add up to the number of students if and only if no student is both moderate and critical |
| `Cohort.Filtered` | src/App.jsx:264-268 | the cohort is an order-preserving subsequence of the roster holding every admitted student as often as the roster does and no other: gender equal unless the selection is "All", semester text equal unless "All" |
| `Cohort.NoFilterIsIdentity` | src/App.jsx:259-268 | with both selections at "All" (the initial state) the cohort is the whole roster, in order |
| `Cohort.EmptyRosterEmptyCohort` | src/App.jsx:264-268 | an empty roster gives an empty cohort for every selection |
| `Cohort.SemesterOptionSelects` | src/App.jsx:262-266 | choosing the semester option `String(k)` keeps exactly the students of semester k (and of the chosen gender unless "All") |
| `Decimal.IntToStringRoundTrip` | src/App.jsx:266 | the decimal text of an integer is made of digits after an optional leading '-', and reading it back gives the integer |
| `Decimal.IntToStringInjective` | src/App.jsx:266 | two semesters have the same text if and only if they are equal |
| `Decimal.IntToStringIsNotAll` | src/App.jsx:265-266 | no semester text equals the wildcard "All" |
| `MoodCounts.TallyMoods` | src/App.jsx:270-277 | the dictionary built in place student by student equals the specification `Distribution` of the cohort |
| `MoodCounts.BucketsAlwaysPresent` | src/App.jsx:271-276 | whatever the cohort, the five keys "-2" .. "2" are present and hold counts (never NaN) |
| `MoodCounts.DistributionCountsLatest` | src/App.jsx:270-277 | when every latest sample is in -2..2, the dictionary is exactly the five buckets "-2" .. "2", bucket v holding the number of students whose latest sample (0 when `mood7` is empty) is v |
| `MoodCounts.TallyLast` | src/App.jsx:272-275 | tallying one more student whose latest sample is in -2..2 turns the counts of the cohort without it into the counts of the cohort with it |
| `MoodCounts.BumpBucket` | src/App.jsx:274 | `map[String(x)]++` with x in -2..2 on the five buckets adds one to the bucket of x and leaves the other four |
| `MoodCounts.BucketsSumToCohort` | src/App.jsx:270-277 | when every latest sample is in -2..2, the five bucket counts sum to the cohort size |
| `MoodCounts.StrayKeysHoldNaN` | src/App.jsx:273-274 | any key other than the five buckets holds NaN |
| `MoodCounts.OutOfScaleLeavesNaN` | src/App.jsx:273-274 | a student whose latest sample is outside -2..2 leaves its text as a key outside the five buckets, holding NaN |
| `MoodSeries.WeeklySeries` | src/App.jsx:279-285 | exactly 7 points; point i is labelled with the i-th weekday and holds the cohort mean of `mood7[i]` |
| `MoodSeries.MonthlySeries` | src/App.jsx:287-293 | exactly 4 points; point i is labelled `W` followed by i + 1 and holds the cohort mean of `moodMonth[i]` |
| `MoodSeries.SeriesLabels` | src/App.jsx:279-293 | for any cohort the weekly labels read Mon, Tue, Wed, Thu, Fri, Sat, Sun and the monthly labels W1, W2, W3, W4 |
| `MoodSeries.EmptyCohortIsFlat` | src/App.jsx:282 | an empty cohort gives mood 0 at every point of both series |
| `MoodSeries.SingletonShowsOwnSamples` | src/App.jsx:281-282 | a one-student cohort shows that student's sample at each index, a missing one as 0 |
| `MoodSeries.SumWithin` | src/App.jsx:281-282 | if every sample read lies in [lo, hi], the sum lies between n copies of lo and n copies of hi, n the cohort size |
| `MoodSeries.MeanWithin` | src/App.jsx:281-282 | the mean lies in any range [lo, hi] containing 0 that holds every sample read |
| `MoodSeries.WeeklyWithinScale` | src/App.jsx:279-285 | if every `mood7` entry is in -2..2, every weekly point is in [-2, 2] |
| `MoodSeries.MonthlyWithinScale` | src/App.jsx:287-293 | if every `moodMonth` entry is in [-2, 2], every monthly point is in [-2, 2] |
| `MoodSeries.MissingSampleDilutes` | src/App.jsx:281-282 | the denominator is the whole cohort: adding a student with no sample at index i leaves mean times cohort size unchanged, pulling the mean toward 0 |
| `DbUpdates.RemovePost` | src/App.jsx:432-433 | the posts left are the order-preserving subsequence of exactly the posts with a different id, each kept as often as before; every other field of `db` is unchanged |
| `DbUpdates.RemovePostIdempotent` | src/App.jsx:432-433 | no post with that id remains, and removing it again changes nothing |
| `DbUpdates.ToggleReported` | src/App.jsx:435-441 | same length and order; each post differs from the old one at most in `reported`, which flips exactly on the posts with that id; every other field of `db` is unchanged |
| `DbUpdates.ToggleTwiceRestores` | src/App.jsx:435-441 | toggling the same id twice gives back the original database |
| `DbUpdates.Deactivate` | src/App.jsx:508-512 | same length and order; each counsellor differs from the old one at most in `status`, which becomes "Inactive" exactly on the counsellors with that id and is otherwise kept; every other field of `db` is unchanged |
| `DbUpdates.DeactivateIdempotent` | src/App.jsx:508-512 | deactivating twice equals deactivating once |
| `DbUpdates.CreateCounsellor` | src/App.jsx:567-578 | on a password mismatch nothing changes; otherwise one new active counsellor without appointments is prepended, the previous list follows unchanged (length + 1) and every other field of `db` is unchanged |
| `DbUpdates.DeactivateFreshCounsellor` | src/App.jsx:571-578 | creating a counsellor under an unused id and deactivating that id changes only the new counsellor |
| `DbUpdates.SendNotification` | src/App.jsx:628-635 | the form plus the new id and status "Sent" is prepended, the previous notifications follow unchanged (length + 1) and every other field of `db` is unchanged |
| `Fixtures.SeedRiskBands` | src/App.jsx:102-107 | on the seed roster the header shows 1 / 1 / 1 and the critical list is ShadowTiger alone |
| `Fixtures.SeedDistribution` | src/App.jsx:104-106 | on the seed roster the buckets -2, -1 and 1 hold one student each and 0 and 2 none |
| `Fixtures.SeedMaleCohort` | src/App.jsx:104-106 | selecting "Male" on the seed roster keeps ShadowTiger then SilentWolf |
| `Fixtures.SeedMaleMondayMean` | src/App.jsx:104-106 | the Monday point of the male cohort of the seed roster is -1.5 |

## Left out

- Rendering, routing, the sidebar and header layout, card styling and the charts: presentation only.
- Font and stylesheet injection (`src/App.jsx:39-75`): DOM side effects.
- `uid` (`src/App.jsx:99`): it draws a random number; the new id is a parameter of `CreateCounsellor` and `SendNotification`. Nothing makes it unique; `DeactivateFreshCounsellor` states what holds when it is.
- The `toFixed(2)` rounding of the series (`src/App.jsx:282`, `src/App.jsx:290`): display formatting; the model computes exact real means.
- Floating point: `moodMonth` values and all means are exact reals, not IEEE doubles.
- Integer fields (`semester`, `phq`, `gad`, `mood7` samples, post ids) are unbounded integers, not doubles: precision loss past 2^53 and the exponent notation `String(n)` uses from 10^21 on are not modelled; `String(n)` is plain decimal text.
- Fractional `mood7` samples: `mood7` is a sequence of integers, so the stray keys a fractional latest sample would create (such as "0.5") are not modelled; integer samples outside -2..2 are.
- A missing `mood7` or `moodMonth` array (a runtime error in the source) and `null` entries inside them: every student has both sequences, and `?? 0` applies only past their end.
- The password-mismatch `alert` (`src/App.jsx:569`): only its effect, that the database is left unchanged, is modelled. The form and modal state, the form reset after sending and the deep copy of the seed (`src/App.jsx:232`) are UI plumbing.
- The sentiment bar width (`src/App.jsx:487`), the drop-down option lists (`src/App.jsx:261-262`), the critical-appointments table filter (`src/App.jsx:408-409`) and the counsellor profile lookup (`src/App.jsx:607`): display code outside the modelled core.
- Re-running a computation on the same cohort gives the same result because every computation is a function; no separate idempotence lemma is stated.
