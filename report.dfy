/** The report post-processing of the main run: one score and two sign labels
    per date, min-max normalisation of the scores to percentages, and the
    marking of the rows on which a sign starts. */
module Report {

  import opened Wrappers
  import opened Config
  import opened Scoring
  import opened Zodiac

  /** The daily series of the year: one sample per date for every body. */
  predicate WellFormedYear(year: map<Planet, seq<Option<real>>>, days: nat)
  {
    forall p: Planet :: p in year && |year[p]| == days
  }

  /** The transit positions of day `i`, in the order of the body table. */
  function TransitOn(year: map<Planet, seq<Option<real>>>, days: nat, i: nat): (ts: seq<(Planet, Option<real>)>)
    requires WellFormedYear(year, days) && i < days
    ensures |ts| == |Planets|
    ensures forall p: Planet :: ts[PlanetIndex(p)] == (p, year[p][i])
    ensures forall j, k :: 0 <= j < k < |ts| ==> ts[j].0 != ts[k].0
  {
    seq(|Planets|, k requires 0 <= k < |Planets| => (Planets[k], year[Planets[k]][i]))
  }

  /** The day loop: for every date, the day's score against the birth
      positions and the signs of Mars and of Venus. */
  method ScoreYear(birth: seq<(Planet, real)>, dates: seq<Date>,
                   year: map<Planet, seq<Option<real>>>, damp: (real, nat) -> real)
    returns (scores: seq<real>, marsSigns: seq<Sign>, venusSigns: seq<Sign>)
    requires WellFormedYear(year, |dates|)
    ensures |scores| == |marsSigns| == |venusSigns| == |dates|
    ensures forall i :: 0 <= i < |dates| ==>
              scores[i] == FinalScore(PairsTally(birth, TransitOn(year, |dates|, i), |birth|), damp)
    ensures forall i :: 0 <= i < |dates| ==>
              marsSigns[i] == GetZodiac(year[Mars][i]) && venusSigns[i] == GetZodiac(year[Venus][i])
  {
    scores, marsSigns, venusSigns := [], [], [];
    var i := 0;
    while i < |dates|
      invariant 0 <= i <= |dates|
      invariant |scores| == |marsSigns| == |venusSigns| == i
      invariant forall j :: 0 <= j < i ==>
                  scores[j] == FinalScore(PairsTally(birth, TransitOn(year, |dates|, j), |birth|), damp)
      invariant forall j :: 0 <= j < i ==>
                  marsSigns[j] == GetZodiac(year[Mars][j]) && venusSigns[j] == GetZodiac(year[Venus][j])
    {
      var transit := TransitOn(year, |dates|, i);
      var score := CalculateScore(birth, transit, damp);
      scores := scores + [score];
      marsSigns := marsSigns + [GetZodiac(year[Mars][i])];
      venusSigns := venusSigns + [GetZodiac(year[Venus][i])];
      i := i + 1;
    }
  }

  /** A day with a missing sample has at most one birth body's worth of
      pairs fewer to score: with seven bodies, at most 42 hits. */
  lemma MissingSampleDayBound(birth: seq<(Planet, real)>, year: map<Planet, seq<Option<real>>>,
                              days: nat, i: nat, p: Planet)
    requires WellFormedYear(year, days) && i < days && year[p][i].None?
    ensures PairsTally(birth, TransitOn(year, days, i), |birth|).hits <= |birth| * (|Planets| - 1)
  {
    var ts := TransitOn(year, days, i);
    var k := PlanetIndex(p);
    assert ts[k].1.None?;
    PresentMissing(ts, |ts|, k);
    PairsBounds(birth, ts, |birth|);
    MulMonotone(|birth|, Present(ts, |ts|), |Planets| - 1);
  }

  /** One missing sample among the first `n` leaves at most `n - 1`
      present. */
  lemma {:induction false} PresentMissing(ts: seq<(Planet, Option<real>)>, n: nat, k: nat)
    requires k < n <= |ts| && ts[k].1.None?
    ensures Present(ts, n) <= n - 1
  {
    if k < n - 1 {
      PresentMissing(ts, n - 1, k);
    }
  }

  function Min(s: seq<real>): (m: real)
    requires |s| > 0
    ensures exists i :: 0 <= i < |s| && s[i] == m
    ensures forall i :: 0 <= i < |s| ==> m <= s[i]
  {
    if |s| == 1 then s[0]
    else
      var rest := Min(s[1..]);
      assert forall i :: 1 <= i < |s| ==> s[i] == s[1..][i - 1];
      if s[0] <= rest then s[0] else rest
  }

  function Max(s: seq<real>): (m: real)
    requires |s| > 0
    ensures exists i :: 0 <= i < |s| && s[i] == m
    ensures forall i :: 0 <= i < |s| ==> s[i] <= m
  {
    if |s| == 1 then s[0]
    else
      var rest := Max(s[1..]);
      assert forall i :: 1 <= i < |s| ==> s[i] == s[1..][i - 1];
      if s[0] >= rest then s[0] else rest
  }

  /** One percentage: `(x - lo) / (hi - lo) * 100` for a score `x` between
      the year's minimum `lo` and maximum `hi`; NaN when the range is
      empty. */
  function Percent(x: real, lo: real, hi: real): (r: Option<real>)
    requires lo <= x <= hi
    ensures lo == hi <==> r.None?
    ensures r.Some? ==> 0.0 <= r.value <= 100.0
  {
    if hi - lo == 0.0 then None
    else
      QuotientBounds(x - lo, hi - lo, 0.0, 1.0);
      Some((x - lo) / (hi - lo) * 100.0)
  }

  /** The inverse of a percentage: the score it was computed from. */
  function Denormalize(p: real, lo: real, hi: real): real
  {
    lo + p / 100.0 * (hi - lo)
  }

  /** A percentage is 0 exactly at the minimum and 100 exactly at the
      maximum, it is monotone in the score, and it can be undone. */
  lemma PercentFacts(x: real, y: real, lo: real, hi: real)
    requires lo <= x <= hi && lo <= y <= hi && lo < hi
    ensures Percent(x, lo, hi).value == 0.0 <==> x == lo
    ensures Percent(x, lo, hi).value == 100.0 <==> x == hi
    ensures x <= y ==> Percent(x, lo, hi).value <= Percent(y, lo, hi).value
    ensures Denormalize(Percent(x, lo, hi).value, lo, hi) == x
  {
    var w := hi - lo;
    var u := (x - lo) / w;
    var v := (y - lo) / w;
    assert u * w == x - lo;
    assert v * w == y - lo;
    assert Percent(x, lo, hi).value == u * 100.0;
    assert Percent(y, lo, hi).value == v * 100.0;
    if x <= y {
      assert (v - u) * w == y - x;
    }
  }

  /** Min-max normalisation of the year's scores, element by element. There
      is no guard for a year whose scores are all equal: every percentage is
      then NaN. */
  function Normalize(scores: seq<real>): (r: seq<Option<real>>)
    ensures |r| == |scores|
    ensures |scores| > 0 && Min(scores) == Max(scores) ==> forall i :: 0 <= i < |r| ==> r[i].None?
    ensures |scores| > 0 && Min(scores) < Max(scores) ==>
              forall i :: 0 <= i < |r| ==> r[i].Some? && 0.0 <= r[i].value <= 100.0
  {
    if |scores| == 0 then []
    else
      var lo, hi := Min(scores), Max(scores);
      seq(|scores|, i requires 0 <= i < |scores| => Percent(scores[i], lo, hi))
  }

  /** Normalisation keeps the order of the scores and sends exactly the
      minimum to 0 and exactly the maximum to 100. */
  lemma NormalizeExact(scores: seq<real>, i: nat, j: nat)
    requires i < |scores| && j < |scores| && Min(scores) < Max(scores)
    ensures (Normalize(scores)[i].value == 0.0) <==> (scores[i] == Min(scores))
    ensures (Normalize(scores)[i].value == 100.0) <==> (scores[i] == Max(scores))
    ensures scores[i] <= scores[j] ==> Normalize(scores)[i].value <= Normalize(scores)[j].value
  {
    var lo, hi := Min(scores), Max(scores);
    assert Normalize(scores)[i] == Percent(scores[i], lo, hi);
    assert Normalize(scores)[j] == Percent(scores[j], lo, hi);
    PercentFacts(scores[i], scores[j], lo, hi);
  }

  /** Normalisation can be undone: denormalising a percentage with the
      year's minimum and maximum gives back the raw score. */
  lemma NormalizeRoundTrip(scores: seq<real>, i: nat)
    requires i < |scores| && Min(scores) < Max(scores)
    ensures Denormalize(Normalize(scores)[i].value, Min(scores), Max(scores)) == scores[i]
  {
    var lo, hi := Min(scores), Max(scores);
    assert Normalize(scores)[i] == Percent(scores[i], lo, hi);
    PercentFacts(scores[i], scores[i], lo, hi);
  }

  /** The row on which sign transitions are marked: a date that is some
      sign's start date, on its first occurrence. */
  function TransitionAt(dates: seq<Date>, k: nat): (r: Option<Sign>)
    requires k < |dates|
    ensures r.Some? ==> dates[k] == StartDate(r.value)
    ensures r.Some? ==> forall j :: 0 <= j < k ==> dates[j] != dates[k]
  {
    if forall j :: 0 <= j < k ==> dates[j] != dates[k] then SignStartingOn(dates[k]) else None
  }

  /** Row `k` is marked for a sign among the first `s` of the transition
      table. */
  predicate MarkedBy(dates: seq<Date>, k: nat, s: nat)
    requires k < |dates| && s <= |StartOrder|
  {
    TransitionAt(dates, k).Some? && TransitionAt(dates, k).value in StartOrder[..s]
  }

  /** The transition columns of the report: every row starts with flag 0
      and an empty name; for each sign of the table, the first row dated on
      its start day gets flag 100 and the sign's name. */
  method MarkTransitions(dates: seq<Date>) returns (flags: array<int>, names: array<string>)
    ensures fresh(flags) && fresh(names)
    ensures flags.Length == names.Length == |dates|
    ensures forall k :: 0 <= k < |dates| ==>
              flags[k] == (if TransitionAt(dates, k).Some? then 100 else 0)
    ensures forall k :: 0 <= k < |dates| ==>
              names[k] == (if TransitionAt(dates, k).Some? then Name(TransitionAt(dates, k).value) else "")
  {
    names := new string[|dates|](_ => "");
    flags := new int[|dates|](_ => 0);
    var s := 0;
    while s < |StartOrder|
      invariant 0 <= s <= |StartOrder|
      invariant forall k :: 0 <= k < |dates| ==>
                  flags[k] == (if MarkedBy(dates, k, s) then 100 else 0)
      invariant forall k :: 0 <= k < |dates| ==>
                  names[k] == (if MarkedBy(dates, k, s) then Name(TransitionAt(dates, k).value) else "")
    {
      var sign := StartOrder[s];
      var start := StartDate(sign);
      var idx := 0;
      while idx < |dates| && dates[idx] != start
        invariant 0 <= idx <= |dates|
        invariant forall j :: 0 <= j < idx ==> dates[j] != start
      {
        idx := idx + 1;
      }
      assert StartOrder[..s + 1] == StartOrder[..s] + [sign];
      assert sign !in StartOrder[..s];
      SignStartRoundTrip(sign);
      if idx < |dates| {
        assert TransitionAt(dates, idx) == Some(sign);
        flags[idx] := 100;
        names[idx] := Name(sign);
      }
      s := s + 1;
    }
    forall x: Sign ensures x in StartOrder {
      StartOrderComplete(x);
    }
    assert StartOrder[..|StartOrder|] == StartOrder;
  }

  /** Each sign marks at most one row, and it marks one whenever its start
      date occurs among the dates. */
  lemma TransitionRows(dates: seq<Date>, s: Sign)
    ensures forall k1, k2 :: 0 <= k1 < k2 < |dates| ==>
              !(TransitionAt(dates, k1) == Some(s) && TransitionAt(dates, k2) == Some(s))
    ensures StartDate(s) in dates ==> exists k :: 0 <= k < |dates| && TransitionAt(dates, k) == Some(s)
  {
    SignStartRoundTrip(s);
    if StartDate(s) in dates {
      var k := 0;
      while dates[k] != StartDate(s)
        invariant 0 <= k < |dates|
        invariant forall j :: 0 <= j < k ==> dates[j] != StartDate(s)
        invariant StartDate(s) in dates[k..]
        decreases |dates| - k
      {
        k := k + 1;
      }
      assert TransitionAt(dates, k) == Some(s);
    }
  }
}
