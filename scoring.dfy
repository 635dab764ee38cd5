/** The aspect scorer: every birth body is compared with every transit body
    of one day, the first aspect rule whose orb contains their angular
    separation scores a weighted hit, and the day's score is derived from the
    sum of the hits and their number. */
module Scoring {

  import opened Wrappers
  import opened Config
  import opened Angles

  function Abs(x: real): (r: real)
    ensures r >= 0.0 && (r == x || r == -x)
  {
    if x < 0.0 then -x else x
  }

  /** Angular separation of a birth and a transit longitude: the distance
      modulo 360, folded back when it exceeds 180. */
  function Separation(b: real, t: real): (r: real)
    ensures 0.0 <= r <= 180.0
  {
    var d := Mod360(Abs(b - t));
    Mod360Range(Abs(b - t));
    if d > 180.0 then 360.0 - d else d
  }

  /** The separation is the minimal angle between the two longitudes: it lies
      in [0, 180] and differs from `b - t` or from `t - b` by whole turns. */
  lemma SeparationIsMinimalAngle(b: real, t: real)
    ensures 0.0 <= Separation(b, t) <= 180.0
    ensures WholeTurns(Separation(b, t) - (b - t)) || WholeTurns(Separation(b, t) + (b - t))
  {
    var a := Abs(b - t);
    var d := Mod360(a);
    var n := (a / 360.0).Floor;
    assert d == a - 360.0 * n as real;
    if d > 180.0 {
      TurnsOf(360.0 - d + a, n + 1);
      TurnsOf(-(360.0 - d + a), -(n + 1));
    } else {
      TurnsOf(d - a, -n);
      TurnsOf(a - d, n);
    }
  }

  /** The separation does not depend on which longitude is the birth one. */
  lemma SeparationSymmetric(b: real, t: real)
    ensures Separation(b, t) == Separation(t, b)
  {
    assert Abs(b - t) == Abs(t - b);
  }

  /** The separation for a transit sample that may be missing: a missing
      sample (NaN in the source) has no separation. */
  function SampleSeparation(b: real, t: Option<real>): (r: Option<real>)
    ensures r.Some? <==> t.Some?
    ensures r.Some? ==> r.value == Separation(b, t.value)
    ensures r.Some? ==> 0.0 <= r.value <= 180.0
    ensures t.None? ==> forall a: Aspect :: !WithinOrb(r, a)
  {
    match t
    case None => None
    case Some(x) => Some(Separation(b, x))
  }

  /** The orb test of one rule; it fails for a missing separation, as every
      comparison with NaN does. */
  predicate WithinOrb(diff: Option<real>, a: Aspect)
  {
    diff.Some? && Abs(diff.value - a.angle) <= a.orb
  }

  /** Index of the first rule, from `k` on, whose orb contains `diff`. */
  function FirstMatchFrom(diff: Option<real>, k: nat): (r: Option<nat>)
    requires k <= |Aspects|
    decreases |Aspects| - k
    ensures r.Some? ==> k <= r.value < |Aspects|
  {
    if k == |Aspects| then None
    else if WithinOrb(diff, Aspects[k]) then Some(k)
    else FirstMatchFrom(diff, k + 1)
  }

  lemma {:induction false} FirstMatchFromSpec(diff: Option<real>, k: nat)
    requires k <= |Aspects|
    decreases |Aspects| - k
    ensures FirstMatchFrom(diff, k).Some? ==> WithinOrb(diff, Aspects[FirstMatchFrom(diff, k).value])
    ensures FirstMatchFrom(diff, k).Some? ==>
              forall j :: k <= j < FirstMatchFrom(diff, k).value ==> !WithinOrb(diff, Aspects[j])
    ensures FirstMatchFrom(diff, k).None? ==> forall j :: k <= j < |Aspects| ==> !WithinOrb(diff, Aspects[j])
  {
    if k < |Aspects| && !WithinOrb(diff, Aspects[k]) {
      FirstMatchFromSpec(diff, k + 1);
    }
  }

  /** The rule that scores a separation: the first in table order. */
  function FirstMatch(diff: Option<real>): (r: Option<nat>)
    ensures r.Some? ==> r.value < |Aspects|
  {
    FirstMatchFrom(diff, 0)
  }

  /** `FirstMatch` is the first rule whose orb contains the separation, and
      there is none exactly when no orb contains it. */
  lemma FirstMatchSpec(diff: Option<real>)
    ensures FirstMatch(diff).Some? ==> WithinOrb(diff, Aspects[FirstMatch(diff).value])
    ensures FirstMatch(diff).Some? ==> forall j :: 0 <= j < FirstMatch(diff).value ==> !WithinOrb(diff, Aspects[j])
    ensures FirstMatch(diff).None? ==> forall j :: 0 <= j < |Aspects| ==> !WithinOrb(diff, Aspects[j])
  {
    FirstMatchFromSpec(diff, 0);
  }

  /** Weight of a hit: 1 plus a quarter for each priority body in the pair. */
  function Weight(b: Planet, t: Planet): (w: real)
    ensures 1.0 <= w <= 1.5
    ensures w == 1.0 <==> !IsPriority(b) && !IsPriority(t)
    ensures w == 1.5 <==> IsPriority(b) && IsPriority(t)
    ensures w == 1.25 <==> IsPriority(b) != IsPriority(t)
  {
    1.0 + (if IsPriority(b) then 0.25 else 0.0) + (if IsPriority(t) then 0.25 else 0.0)
  }

  /** What a pair at separation `diff` adds: the weighted base score of the
      first rule whose orb contains `diff`, or nothing. */
  function PairScore(b: Planet, t: Planet, diff: Option<real>): Option<real>
  {
    match FirstMatch(diff)
    case None => None
    case Some(k) => Some(Aspects[k].score * Weight(b, t))
  }

  /** What one (birth body, transit body) pair adds. */
  function Contribution(b: (Planet, real), t: (Planet, Option<real>)): Option<real>
  {
    PairScore(b.0, t.0, SampleSeparation(b.1, t.1))
  }

  /** The two accumulators of the scorer. */
  datatype Tally = Tally(sum: real, hits: nat)

  /** Records one pair's contribution: a hit adds its score and one to the
      count, a miss changes nothing. */
  function Add(acc: Tally, c: Option<real>): Tally
  {
    match c
    case None => acc
    case Some(v) => Tally(acc.sum + v, acc.hits + 1)
  }

  function Merge(x: Tally, y: Tally): Tally
  {
    Tally(x.sum + y.sum, x.hits + y.hits)
  }

  /** Accumulators after comparing birth body `b` with the first `n`
      transit bodies of `ts`, in order. */
  function RowTally(b: (Planet, real), ts: seq<(Planet, Option<real>)>, n: nat): Tally
    requires n <= |ts|
  {
    if n == 0 then Tally(0.0, 0)
    else Add(RowTally(b, ts, n - 1), Contribution(b, ts[n - 1]))
  }

  /** Accumulators after comparing each of the first `m` birth bodies of `bs`
      with every transit body of `ts`, birth bodies in the outer loop. */
  function PairsTally(bs: seq<(Planet, real)>, ts: seq<(Planet, Option<real>)>, m: nat): Tally
    requires m <= |bs|
  {
    if m == 0 then Tally(0.0, 0)
    else Merge(PairsTally(bs, ts, m - 1), RowTally(bs[m - 1], ts, |ts|))
  }

  /** The day's score from the accumulators. `damp(mean, hits)` stands for
      `round(mean * log1p(hits), 2)`; with no hit the score is the neutral
      50. */
  function FinalScore(t: Tally, damp: (real, nat) -> real): real
  {
    if t.hits > 0 then damp(t.sum / t.hits as real, t.hits) else 50.0
  }

  /** The rule loop of the scorer: tests the rules in table order and stops
      at the first whose orb contains `diff`. */
  method FirstAspect(diff: Option<real>) returns (r: Option<nat>)
    ensures r.Some? ==> r.value < |Aspects| && WithinOrb(diff, Aspects[r.value])
    ensures r.Some? ==> forall j :: 0 <= j < r.value ==> !WithinOrb(diff, Aspects[j])
    ensures r.None? ==> forall j :: 0 <= j < |Aspects| ==> !WithinOrb(diff, Aspects[j])
  {
    r := None;
    var k := 0;
    while k < |Aspects|
      invariant 0 <= k <= |Aspects|
      invariant forall j :: 0 <= j < k ==> !WithinOrb(diff, Aspects[j])
    {
      var a := Aspects[k];
      if WithinOrb(diff, a) {
        r := Some(k);
        break;
      }
      k := k + 1;
    }
  }

  /** The first-match rule is unique: any index with the properties of a
      first match is `FirstMatch`. */
  lemma FirstMatchUnique(diff: Option<real>, r: Option<nat>)
    requires r.Some? ==> r.value < |Aspects| && WithinOrb(diff, Aspects[r.value])
    requires r.Some? ==> forall j :: 0 <= j < r.value ==> !WithinOrb(diff, Aspects[j])
    requires r.None? ==> forall j :: 0 <= j < |Aspects| ==> !WithinOrb(diff, Aspects[j])
    ensures r == FirstMatch(diff)
  {
    FirstMatchSpec(diff);
  }

  /** The inner loop of the scorer: compares birth body `b` with every
      transit body in turn, and adds each hit to the running accumulators. */
  method ScoreBirthBody(b: (Planet, real), transit: seq<(Planet, Option<real>)>, sum0: real, hits0: nat)
    returns (scoreSum: real, hits: nat)
    ensures Tally(scoreSum, hits) == Merge(Tally(sum0, hits0), RowTally(b, transit, |transit|))
  {
    scoreSum, hits := sum0, hits0;
    var j := 0;
    while j < |transit|
      invariant 0 <= j <= |transit|
      invariant Tally(scoreSum, hits) == Merge(Tally(sum0, hits0), RowTally(b, transit, j))
    {
      var t := transit[j];
      var diff := SampleSeparation(b.1, t.1);
      var k := FirstAspect(diff);
      FirstMatchUnique(diff, k);
      ghost var c := Contribution(b, t);
      assert RowTally(b, transit, j + 1) == Add(RowTally(b, transit, j), c);
      if k.Some? {
        var weight := Weight(b.0, t.0);
        assert c == Some(Aspects[k.value].score * weight);
        scoreSum := scoreSum + Aspects[k.value].score * weight;
        hits := hits + 1;
      }
      j := j + 1;
    }
  }

  /** The scorer of the source: every birth body against every transit
      body, then the damped mean of the hits, or 50 without a hit. */
  method CalculateScore(birth: seq<(Planet, real)>, transit: seq<(Planet, Option<real>)>,
                        damp: (real, nat) -> real)
    returns (score: real)
    ensures score == FinalScore(PairsTally(birth, transit, |birth|), damp)
  {
    var scoreSum := 0.0;
    var hits: nat := 0;
    var i := 0;
    while i < |birth|
      invariant 0 <= i <= |birth|
      invariant Tally(scoreSum, hits) == PairsTally(birth, transit, i)
    {
      scoreSum, hits := ScoreBirthBody(birth[i], transit, scoreSum, hits);
      i := i + 1;
    }
    score := FinalScore(Tally(scoreSum, hits), damp);
  }

  /** Number of transit samples present among the first `n` of `ts`. */
  function Present(ts: seq<(Planet, Option<real>)>, n: nat): (r: nat)
    requires n <= |ts|
    ensures r <= n
  {
    if n == 0 then 0
    else Present(ts, n - 1) + (if ts[n - 1].1.Some? then 1 else 0)
  }

  /** Every hit is worth between 25 (a square between two ordinary bodies)
      and 150 (a conjunction between two priority bodies). */
  lemma PairScoreRange(b: Planet, t: Planet, diff: Option<real>)
    ensures PairScore(b, t, diff).Some? ==> 25.0 <= PairScore(b, t, diff).value <= 150.0
  {
    match FirstMatch(diff)
    case None =>
    case Some(k) =>
      var w := Weight(b, t);
      assert Aspects[k].score in {100.0, 70.0, 25.0, 90.0, 40.0};
      assert 25.0 <= Aspects[k].score <= 100.0;
      assert 25.0 * w <= Aspects[k].score * w <= 100.0 * w;
  }

  /** A missing transit sample never passes an orb test: its pair adds no
      hit and no score. */
  lemma MissingSampleNoHit(b: (Planet, real), t: (Planet, Option<real>))
    requires t.1.None?
    ensures Contribution(b, t) == None
  {
  }

  /** One birth body adds at most one hit per present transit sample, and
      each hit between 25 and 150. */
  lemma {:induction false} RowBounds(b: (Planet, real), ts: seq<(Planet, Option<real>)>, n: nat)
    requires n <= |ts|
    ensures RowTally(b, ts, n).hits <= Present(ts, n)
    ensures 25.0 * RowTally(b, ts, n).hits as real <= RowTally(b, ts, n).sum
    ensures RowTally(b, ts, n).sum <= 150.0 * RowTally(b, ts, n).hits as real
  {
    if n > 0 {
      RowBounds(b, ts, n - 1);
      PairScoreRange(b.0, ts[n - 1].0, SampleSeparation(b.1, ts[n - 1].1));
      if ts[n - 1].1.None? {
        MissingSampleNoHit(b, ts[n - 1]);
      }
    }
  }

  /** Each (birth, transit) pair adds at most one hit, so the count is at
      most the number of birth bodies times the number of present transit
      samples (49 for a complete day), and the sum lies between 25 and 150
      times the count. */
  lemma {:induction false} PairsBounds(bs: seq<(Planet, real)>, ts: seq<(Planet, Option<real>)>, m: nat)
    requires m <= |bs|
    ensures PairsTally(bs, ts, m).hits <= m * Present(ts, |ts|) <= m * |ts|
    ensures 25.0 * PairsTally(bs, ts, m).hits as real <= PairsTally(bs, ts, m).sum
    ensures PairsTally(bs, ts, m).sum <= 150.0 * PairsTally(bs, ts, m).hits as real
  {
    var p := Present(ts, |ts|);
    if m > 0 {
      PairsBounds(bs, ts, m - 1);
      RowBounds(bs[m - 1], ts, |ts|);
      assert (m - 1) * p + p == m * p;
    }
    MulMonotone(m, p, |ts|);
  }

  lemma {:induction false} MulMonotone(a: nat, x: nat, y: nat)
    requires x <= y
    ensures a * x <= a * y
  {
    if a > 0 {
      MulMonotone(a - 1, x, y);
      assert a * x == (a - 1) * x + x;
      assert a * y == (a - 1) * y + y;
    }
  }

  lemma QuotientBounds(s: real, h: real, lo: real, hi: real)
    requires h > 0.0 && lo * h <= s <= hi * h
    ensures lo <= s / h <= hi
  {
    assert s / h * h == s;
  }

  /** The mean passed to the damping step of a scored day lies in
      [25, 150]. */
  lemma MeanBounds(bs: seq<(Planet, real)>, ts: seq<(Planet, Option<real>)>)
    requires PairsTally(bs, ts, |bs|).hits > 0
    ensures 25.0 <= PairsTally(bs, ts, |bs|).sum / PairsTally(bs, ts, |bs|).hits as real <= 150.0
  {
    var t := PairsTally(bs, ts, |bs|);
    PairsBounds(bs, ts, |bs|);
    QuotientBounds(t.sum, t.hits as real, 25.0, 150.0);
  }

  /** Identical longitudes are 0 degrees apart. */
  lemma SeparationOfEqual(x: real)
    ensures Separation(x, x) == 0.0
  {
    assert Abs(x - x) == 0.0;
    assert (0.0 / 360.0).Floor == 0;
  }

  /** The orb windows of the rule table do not overlap, so the first match
      is the only one and the table order never decides between two rules. */
  lemma OrbsDisjoint(diff: Option<real>, j: nat, k: nat)
    requires j < k < |Aspects|
    ensures !(WithinOrb(diff, Aspects[j]) && WithinOrb(diff, Aspects[k]))
  {
  }

  /** A pair at most 8 degrees apart (in particular at identical longitudes)
      matches the conjunction, the first rule, and adds 100 times its
      weight. */
  lemma ConjunctionWins(b: (Planet, real), t: (Planet, Option<real>))
    requires t.1.Some? && Separation(b.1, t.1.value) <= 8.0
    ensures Contribution(b, t) == Some(100.0 * Weight(b.0, t.0))
  {
    assert FirstMatchFrom(SampleSeparation(b.1, t.1), 0) == Some(0);
  }

  /** No pair of birth body `b` with a transit body of `ts` matches a rule. */
  predicate RowQuiet(b: (Planet, real), ts: seq<(Planet, Option<real>)>)
  {
    forall j :: 0 <= j < |ts| ==> Contribution(b, ts[j]).None?
  }

  /** A birth body scores no hit exactly when none of its pairs matches a
      rule. */
  lemma {:induction false} RowNoHit(b: (Planet, real), ts: seq<(Planet, Option<real>)>, n: nat)
    requires n <= |ts|
    ensures RowTally(b, ts, n).hits == 0 <==> RowQuiet(b, ts[..n])
  {
    if n > 0 {
      RowNoHit(b, ts, n - 1);
      assert ts[..n] == ts[..n - 1] + [ts[n - 1]];
    }
  }

  /** A day has no hit, and therefore the neutral score 50 whatever the
      damping, exactly when no (birth, transit) pair matches a rule. */
  lemma {:induction false} NeutralIffNoAspect(bs: seq<(Planet, real)>, ts: seq<(Planet, Option<real>)>, m: nat)
    requires m <= |bs|
    ensures PairsTally(bs, ts, m).hits == 0 <==> forall i :: 0 <= i < m ==> RowQuiet(bs[i], ts)
    ensures PairsTally(bs, ts, m).hits == 0 ==> forall damp :: FinalScore(PairsTally(bs, ts, m), damp) == 50.0
  {
    if m > 0 {
      NeutralIffNoAspect(bs, ts, m - 1);
      RowNoHit(bs[m - 1], ts, |ts|);
      assert ts[..|ts|] == ts;
    }
  }

  /** Seven birth bodies, all at longitude `x`. */
  function UniformBirth(x: real): (bs: seq<(Planet, real)>)
    ensures |bs| == 7 && forall i :: 0 <= i < 7 ==> bs[i] == (Planets[i], x)
  {
    [(Sun, x), (Moon, x), (Mercury, x), (Venus, x), (Mars, x), (Jupiter, x), (Saturn, x)]
  }

  /** A day on which all seven transit bodies stand at longitude `x`. */
  function UniformDay(x: real): (ts: seq<(Planet, Option<real>)>)
    ensures |ts| == 7 && forall j :: 0 <= j < 7 ==> ts[j] == (Planets[j], Some(x))
  {
    [(Sun, Some(x)), (Moon, Some(x)), (Mercury, Some(x)), (Venus, Some(x)),
     (Mars, Some(x)), (Jupiter, Some(x)), (Saturn, Some(x))]
  }

  /** One birth body against seven transit bodies at its own longitude:
      seven conjunctions, weighted 1.5 or 1.25 for a priority body and 1.25
      or 1 otherwise. */
  lemma {:induction false} ConjunctRow(p: Planet, x: real)
    ensures RowTally((p, x), UniformDay(x), 7) == Tally(if IsPriority(p) then 950.0 else 775.0, 7)
  {
    var b := (p, x);
    var ts := UniformDay(x);
    SeparationOfEqual(x);
    forall j | 0 <= j < 7
      ensures Contribution(b, ts[j]) == Some(100.0 * Weight(p, Planets[j]))
    {
      ConjunctionWins(b, ts[j]);
    }
    assert RowTally(b, ts, 1) == Tally(100.0 * Weight(p, Sun), 1);
    assert RowTally(b, ts, 2) == Tally(100.0 * (Weight(p, Sun) + Weight(p, Moon)), 2);
    assert RowTally(b, ts, 3) == Tally(100.0 * (Weight(p, Sun) + Weight(p, Moon) + Weight(p, Mercury)), 3);
    assert RowTally(b, ts, 4) == Tally(100.0 * (Weight(p, Sun) + Weight(p, Moon) + Weight(p, Mercury)
                                               + Weight(p, Venus)), 4);
    assert RowTally(b, ts, 5) == Tally(100.0 * (Weight(p, Sun) + Weight(p, Moon) + Weight(p, Mercury)
                                               + Weight(p, Venus) + Weight(p, Mars)), 5);
    assert RowTally(b, ts, 6) == Tally(100.0 * (Weight(p, Sun) + Weight(p, Moon) + Weight(p, Mercury)
                                               + Weight(p, Venus) + Weight(p, Mars) + Weight(p, Jupiter)), 6);
  }

  /** All fourteen bodies at one longitude: all 49 pairs are conjunctions;
      9 pairs of two priority bodies weigh 1.5, 24 mixed pairs 1.25 and 16
      ordinary pairs 1, so the sum is 5950 over 49 hits. */
  lemma {:induction false} AllConjunctScenario(x: real)
    ensures PairsTally(UniformBirth(x), UniformDay(x), 7) == Tally(5950.0, 49)
  {
    var bs := UniformBirth(x);
    var ts := UniformDay(x);
    ConjunctRow(Sun, x);
    ConjunctRow(Moon, x);
    ConjunctRow(Mercury, x);
    ConjunctRow(Venus, x);
    ConjunctRow(Mars, x);
    ConjunctRow(Jupiter, x);
    ConjunctRow(Saturn, x);
    assert PairsTally(bs, ts, 1) == Tally(950.0, 7);
    assert PairsTally(bs, ts, 2) == Tally(1725.0, 14);
    assert PairsTally(bs, ts, 3) == Tally(2500.0, 21);
    assert PairsTally(bs, ts, 4) == Tally(3450.0, 28);
    assert PairsTally(bs, ts, 5) == Tally(4400.0, 35);
    assert PairsTally(bs, ts, 6) == Tally(5175.0, 42);
  }

  /** Every transit body 45 degrees past every birth body: 45 lies outside
      all five orbs, so no pair scores and the day gets the neutral 50. */
  lemma NoAspectAt45Scenario(x: real, damp: (real, nat) -> real)
    ensures PairsTally(UniformBirth(x), UniformDay(x + 45.0), 7).hits == 0
    ensures FinalScore(PairsTally(UniformBirth(x), UniformDay(x + 45.0), 7), damp) == 50.0
  {
    var bs := UniformBirth(x);
    var ts := UniformDay(x + 45.0);
    assert Separation(x, x + 45.0) == 45.0 by {
      assert Abs(x - (x + 45.0)) == 45.0;
      assert (45.0 / 360.0).Floor == 0;
    }
    forall i | 0 <= i < 7
      ensures RowQuiet(bs[i], ts)
    {
      forall j | 0 <= j < |ts|
        ensures Contribution(bs[i], ts[j]).None?
      {
        assert FirstMatchFrom(Some(45.0), 0).None?;
      }
    }
    NeutralIffNoAspect(bs, ts, 7);
  }
}
