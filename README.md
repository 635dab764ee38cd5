# Astrological compatibility calculator — verified model of the scoring core

The calculator compares the ecliptic longitudes of seven bodies at a fixed
birth instant with their longitudes on every day of a target year. For each
day it produces a compatibility score, the zodiac signs of Mars and Venus,
a percentage obtained by min–max normalisation of the year's scores, and a
marker on the rows where a sign starts. This project models that core in
Dafny and proves its properties:

- `config.dfy` (module `Config`) holds the fixed tables: the seven bodies,
  the priority bodies (Sun, Venus, Mars), the aspect rules (angle, orb,
  base score), the twelve signs with their 30-degree bands and German
  labels, and the calendar start day of each sign.
- `angles.dfy` (module `Angles`) is the reduction of a longitude modulo
  360, shared by the scorer and the sign lookup.
- `scoring.dfy` (module `Scoring`) is the aspect scorer. It has the angular
  separation, the first-match rule scan, the pair weight and the two
  accumulators (score sum and hit count). The nested loops of the scorer are
  methods proved equal to a recursive specification of the accumulators.
  The lemmas bound the hits and the sum, characterise the neutral score,
  give conjunction precedence, and cover missing samples.
- `zodiac.dfy` (module `Zodiac`) is the sign lookup. It is the table scan of
  the source, with the early return and the fall-through. It is proved equal
  to the band index floor((x mod 360) / 30) and to be 360-periodic.
- `report.dfy` (module `Report`) is the post-processing of the main run:
  - the day loop (one score and two sign labels per date);
  - min–max normalisation, including the division by zero of a flat year;
  - in-place marking of transition rows in two arrays (flag and name
    columns).
- `wrappers.dfy` (module `Wrappers`) holds `Option`.

Modelling choices:

- Longitudes are `real`. The float `%` of the source is
  `x - 360 * floor(x / 360)`.
- A masked daily sample, which the source turns into NaN, is `None`. NaN
  comparisons are false, so a `None` separation passes no orb test and a
  `None` longitude never compares below a band start.
- `round((sum / hits) * log1p(hits), 2)` is a function parameter
  `damp(mean, hits)`. The model proves everything up to that call: the
  accumulators, the mean passed to it, and the neutral 50 without hits.
- Dates are `(month, day)` pairs within the target year.

Two behaviours are kept as the code has them:

- With all scores equal, the normalisation divides 0 by 0 and every
  percentage is NaN. There is no guard. `Report.Normalize` returns `None`
  for every row in that case.
- A missing Mars or Venus sample is labelled "Fische", the fall-through of
  the sign scan (`Zodiac.MissingSampleIsPisces`).

## Model

| member | source | states |
|---|---|---|
| Config.BandStart | astrology_compatibility_calculator.py:134 | the i-th sign's band starts at 30·i degrees |
| Config.PlanetIndex | astrology_compatibility_calculator.py:41-44 | every body has a position in the body table, and the table holds that body there |
| Config.IsPriority | astrology_compatibility_calculator.py:48 | Sun, Venus and Mars are the priority bodies; the weight they add is proved in `Scoring.Weight` |
| Config.Name | astrology_compatibility_calculator.py:134 | the German label of each sign; `Zodiac.SampleLabels` and `Report.MarkTransitions` state where it is used |
| Config.StartDate | astrology_compatibility_calculator.py:56-61 | the fixed start day of each sign; proved one to one in `Config.SignStartRoundTrip` |
| Config.SignStartingOn | astrology_compatibility_calculator.py:56-61 | the sign, if any, whose fixed start day is the given date; none when no sign starts that day |
| Config.SignStartRoundTrip | astrology_compatibility_calculator.py:56-61 | start days and signs correspond one to one, so no two signs share a start row |
| Config.StartOrderComplete | astrology_compatibility_calculator.py:56-61 | the transition table lists all twelve signs |
| Angles.Mod360 | astrology_compatibility_calculator.py:114 | Python's float `% 360` for a positive divisor; its range and congruence are proved in `Angles.Mod360Range` and `Angles.Mod360Turns` |
| Angles.Mod360Range | astrology_compatibility_calculator.py:114 | float `% 360` yields the representative in [0, 360) that differs from the input by whole turns |
| Angles.Mod360Turns | astrology_compatibility_calculator.py:135 | reducing modulo 360 ignores whole turns |
| Scoring.Separation | astrology_compatibility_calculator.py:114-115 | the separation lies in [0, 180] |
| Scoring.SeparationIsMinimalAngle | astrology_compatibility_calculator.py:114-115 | the separation is the angle in [0, 180] congruent to plus or minus the longitude difference, i.e. the minimal angle |
| Scoring.SeparationSymmetric | astrology_compatibility_calculator.py:114-115 | swapping birth and transit longitude leaves the separation unchanged |
| Scoring.SeparationOfEqual | astrology_compatibility_calculator.py:114-115 | identical longitudes are 0 degrees apart |
| Scoring.SampleSeparation | astrology_compatibility_calculator.py:114-115 | a present sample has a separation in [0, 180]; a missing (NaN) sample has none, and no rule's orb test accepts it |
| Scoring.WithinOrb | astrology_compatibility_calculator.py:117 | the orb test of one rule, false for a missing (NaN) separation; `Scoring.FirstMatchSpec`, `Scoring.MissingSampleNoHit` and `Scoring.OrbsDisjoint` state its use |
| Scoring.FirstMatchFrom | astrology_compatibility_calculator.py:116-122 | the rule scan from a position returns an index of the table at or after it |
| Scoring.FirstMatchFromSpec | astrology_compatibility_calculator.py:116-122 | the scan returns the first rule whose orb contains the separation, and nothing exactly when no later orb contains it |
| Scoring.FirstMatch | astrology_compatibility_calculator.py:116-122 | the matching rule, if any, is an index of the aspect table |
| Scoring.FirstMatchSpec | astrology_compatibility_calculator.py:116-122 | the matching rule is the first in table order whose orb contains the separation; none exactly when no orb contains it |
| Scoring.FirstAspect | astrology_compatibility_calculator.py:116-122 | the rule loop with its `break` returns the first matching rule, or none when every orb test fails |
| Scoring.FirstMatchUnique | astrology_compatibility_calculator.py:116-122 | any index with the first-match properties is the first match, so the rule loop computes the first-match function |
| Scoring.OrbsDisjoint | astrology_compatibility_calculator.py:52 | no separation lies in two orbs of the table, so the first match is the only match |
| Scoring.Weight | astrology_compatibility_calculator.py:119 | the weight is 1, 1.25 or 1.5: 1 without a priority body, 1.5 with two, 1.25 with exactly one |
| Scoring.PairScore | astrology_compatibility_calculator.py:116-121 | a pair's hit is the first matching rule's base score times the pair weight; bounded in `Scoring.PairScoreRange` |
| Scoring.Contribution | astrology_compatibility_calculator.py:113-121 | what one birth×transit pair adds; `Scoring.MissingSampleNoHit` and `Scoring.ConjunctionWins` state its cases |
| Scoring.Add | astrology_compatibility_calculator.py:120-121 | a hit adds its score to the sum and one to the count, a miss changes nothing; `Scoring.ScoreBirthBody` and `Scoring.RowBounds` state its effect over a row |
| Scoring.RowTally | astrology_compatibility_calculator.py:113-122 | sum and hits of one birth body against the transit bodies in order; bounded in `Scoring.RowBounds`, zero hits characterised in `Scoring.RowNoHit` |
| Scoring.PairsTally | astrology_compatibility_calculator.py:112-122 | sum and hits over all pairs, birth bodies outermost; bounded in `Scoring.PairsBounds`, zero hits characterised in `Scoring.NeutralIffNoAspect` |
| Scoring.FinalScore | astrology_compatibility_calculator.py:124 | the damped mean with hits, 50 without; the mean's range is proved in `Scoring.MeanBounds` |
| Scoring.ScoreBirthBody | astrology_compatibility_calculator.py:113-122 | the inner loop adds to the running sum and count exactly the hits of one birth body against every transit body |
| Scoring.CalculateScore | astrology_compatibility_calculator.py:100-124 | the score is the damped mean of the accumulated hits over all birth×transit pairs, birth bodies outermost, or 50 when there is no hit |
| Scoring.Present | astrology_compatibility_calculator.py:97 | a day cannot have more present samples than bodies |
| Scoring.PairScoreRange | astrology_compatibility_calculator.py:119-120 | a hit adds between 25 and 150 to the sum |
| Scoring.MissingSampleNoHit | astrology_compatibility_calculator.py:114-117 | a missing transit sample passes no orb test: its pair adds no hit and no score |
| Scoring.ConjunctionWins | astrology_compatibility_calculator.py:116-121 | a pair at most 8 degrees apart, identical longitudes included, matches the conjunction and adds 100 times its weight |
| Scoring.RowBounds | astrology_compatibility_calculator.py:113-122 | one birth body adds at most one hit per present transit sample, with sum between 25 and 150 times its hits |
| Scoring.PairsBounds | astrology_compatibility_calculator.py:112-122 | hits ≤ birth bodies × present transit samples ≤ birth bodies × transit bodies (49 for a full day), and 25·hits ≤ sum ≤ 150·hits |
| Scoring.MeanBounds | astrology_compatibility_calculator.py:124 | the mean handed to the damping step lies in [25, 150] |
| Scoring.RowNoHit | astrology_compatibility_calculator.py:113-122 | a birth body scores no hit exactly when none of its pairs matches a rule |
| Scoring.NeutralIffNoAspect | astrology_compatibility_calculator.py:110-124 | a day has zero hits exactly when no pair matches a rule, and then its score is 50 whatever the damping |
| Scoring.ConjunctRow | astrology_compatibility_calculator.py:116-121 | one body against seven bodies at its own longitude: seven hits, sum 950 for a priority body and 775 otherwise |
| Scoring.AllConjunctScenario | astrology_compatibility_calculator.py:110-122 | all fourteen bodies at one longitude give 49 conjunction hits with sum 5950 |
| Scoring.NoAspectAt45Scenario | astrology_compatibility_calculator.py:110-124 | transit bodies all 45 degrees past birth bodies give no hit and the neutral score 50 |
| Zodiac.ScanFrom | astrology_compatibility_calculator.py:136-138 | the table scan with its early return and fall-through; `Zodiac.ScanBand` proves which sign it returns |
| Zodiac.GetZodiac | astrology_compatibility_calculator.py:126-138 | the sign label of a sample; proved equal to the band index in `Zodiac.GetZodiacIsBand` and to "Fische" for NaN in `Zodiac.MissingSampleIsPisces` |
| Zodiac.BandIndex | astrology_compatibility_calculator.py:134-135 | the band index is below 12 and its band contains the reduced longitude |
| Zodiac.ScanBand | astrology_compatibility_calculator.py:136-138 | the table scan from any entry not past the longitude's band returns the sign of that band |
| Zodiac.GetZodiacIsBand | astrology_compatibility_calculator.py:126-138 | the sign is the one at index floor((x mod 360) / 30) |
| Zodiac.MissingSampleIsPisces | astrology_compatibility_calculator.py:135-138 | a missing (NaN) longitude falls through the scan to "Fische" |
| Zodiac.GetZodiacPeriodic | astrology_compatibility_calculator.py:135-138 | the sign of x + 360·k is the sign of x |
| Zodiac.BandStartBelongsUp | astrology_compatibility_calculator.py:136-137 | a band's start longitude gets the upper sign (30 gives "Stier") |
| Zodiac.SampleLabels | astrology_compatibility_calculator.py:134-138 | 0 and 29.9 give "Widder", 30 gives "Stier", 359.99 and -0.01 give "Fische" |
| Report.TransitOn | astrology_compatibility_calculator.py:157 | day i's transit map holds each of the seven bodies exactly once, as a dictionary's keys are, each with its own i-th sample |
| Report.ScoreYear | astrology_compatibility_calculator.py:155-160 | exactly one score and one Mars and one Venus label per date, each computed from that date's samples |
| Report.MissingSampleDayBound | astrology_compatibility_calculator.py:156-158 | a day with a missing sample scores at most birth bodies × 6 hits (42 for seven birth bodies) |
| Report.PresentMissing | astrology_compatibility_calculator.py:97 | one missing sample among n leaves at most n − 1 present |
| Report.Min | astrology_compatibility_calculator.py:172 | the minimum is one of the scores and no score is below it |
| Report.Max | astrology_compatibility_calculator.py:172 | the maximum is one of the scores and no score is above it |
| Report.Percent | astrology_compatibility_calculator.py:173 | a percentage is NaN exactly when max equals min, and otherwise lies in [0, 100] |
| Report.PercentFacts | astrology_compatibility_calculator.py:173 | a percentage is 0 exactly at the minimum, 100 exactly at the maximum, monotone in the score, and inverted by denormalising |
| Report.Normalize | astrology_compatibility_calculator.py:172-173 | one percentage per score; all in [0, 100] when max > min; all NaN when every score is equal |
| Report.NormalizeExact | astrology_compatibility_calculator.py:172-173 | normalisation maps exactly the minimum to 0 and exactly the maximum to 100 and preserves the order of scores |
| Report.NormalizeRoundTrip | astrology_compatibility_calculator.py:172-173 | min + p/100·(max − min) gives back each raw score |
| Report.TransitionAt | astrology_compatibility_calculator.py:177-183 | a marked row carries a sign's start date and is that date's first occurrence |
| Report.MarkTransitions | astrology_compatibility_calculator.py:176-183 | flag 100 and the sign's name exactly on the first row dated on a sign's start day; every other row keeps flag 0 and an empty name |
| Report.TransitionRows | astrology_compatibility_calculator.py:177-183 | each sign marks at most one row, and marks one whenever its start date occurs |

## Left out

- Ephemeris lookups (`fetch_birth_positions`, `fetch_year_positions`, lines 67-98) are network calls to an external service. The birth longitudes and the daily series are parameters, and masked daily samples arrive as `None`.
- The Julian-date conversion and the body identifiers of the ephemeris service are used only by those lookups, so they are not modelled.
- `np.log1p` and `round(..., 2)` (line 124) are transcendental floating-point steps. They are the parameter `damp`. No literal score is proved for a scored day; the proved values are the sum, the hit count and the mean.
- Floating-point rounding is not modelled. Reals are exact, so rounding in the sums, in the separation arithmetic and in the percentages is not captured, and neither is the float `%` quirk where a tiny negative value gives 360.0.
- A missing birth sample is not modelled. Line 79 converts the first sample with `float(...)` without a check, so a masked birth value would silently become NaN (the warning is silenced at line 25). The model takes the birth longitudes as plain reals, because only the external lookup could produce such a value.
- DataFrame construction and date parsing (lines 163-169, 178) are left out. Dates are `(month, day)` pairs of the target year, and the report columns are the sequences and arrays the model returns. They are not assembled into one table.
- Excel export, chart construction, styling, saving and the final message (lines 186-217) are file output and presentation.
- The warning filter and the birth-date constant (lines 25, 33) configure the external lookups. The year constant (line 37) also fixes the year of the transition dates at line 178. The `(month, day)` dates of the model are taken to lie in that year, so the year itself is not represented.
