/** The scoring panel (src/components/admin/CandidateScoring.tsx): grade and
    colour bands, the overview figures over the scored applications, and the
    per-candidate state kept while scoring. The scoring service's replies are
    parameters (None for a failed request). */
module CandidateScoring {
  import opened Wrappers
  import opened AdminTypes
  import Sorting

  // ----- Bands -----

  datatype Grade = APlus | A | B | C | D

  function GradeText(g: Grade): string {
    match g
    case APlus => "A+"
    case A => "A"
    case B => "B"
    case C => "C"
    case D => "D"
  }

  /** The position of a grade, D lowest. */
  function Rank(g: Grade): nat {
    match g
    case D => 0
    case C => 1
    case B => 2
    case A => 3
    case APlus => 4
  }

  /** `getScoreGrade`: 90 and up A+, 80 A, 70 B, 60 C, below D. */
  function GradeOf(score: real): (g: Grade)
    ensures g == APlus <==> score >= 90.0
    ensures g == D <==> score < 60.0
  {
    if score >= 90.0 then APlus
    else if score >= 80.0 then A
    else if score >= 70.0 then B
    else if score >= 60.0 then C
    else D
  }

  /** A higher score never earns a lower grade, and a grade's scores lie
      in its ten-point band. */
  lemma GradeMonotone(x: real, y: real)
    ensures x <= y ==> Rank(GradeOf(x)) <= Rank(GradeOf(y))
    ensures 1 <= Rank(GradeOf(x)) <= 3 ==> (50 + 10 * Rank(GradeOf(x))) as real <= x < (60 + 10 * Rank(GradeOf(x))) as real
  {
  }

  /** Distinct grades read differently. */
  lemma GradeTextsDistinct(g: Grade, h: Grade)
    requires g != h
    ensures GradeText(g) != GradeText(h)
  {
    if |GradeText(g)| == |GradeText(h)| {
      assert GradeText(g)[0] != GradeText(h)[0];
    }
  }

  datatype Colour = Green | Yellow | Red

  /** `getScoreColor`: 80 and up green, 60 yellow, below red. */
  function ColourOf(score: real): (c: Colour)
  {
    if score >= 80.0 then Green else if score >= 60.0 then Yellow else Red
  }

  /** The colour bands group the grades: green is A+ and A, yellow B and C,
      red D. */
  lemma ColourFollowsGrade(score: real)
    ensures ColourOf(score) == Green <==> Rank(GradeOf(score)) >= 3
    ensures ColourOf(score) == Yellow <==> Rank(GradeOf(score)) in {1, 2}
    ensures ColourOf(score) == Red <==> GradeOf(score) == D
  {
  }

  // ----- Overview figures -----

  /** `scores[app.id]` as a condition: a stored score is an object, so
      truthy. */
  predicate IsScored(scores: map<string, CandidateScore>, app: AdminApplication) {
    app.id in scores
  }

  /** The scored applications, in list order. */
  function Scored(apps: seq<AdminApplication>, scores: map<string, CandidateScore>): (r: seq<AdminApplication>)
    ensures |r| <= |apps|
    ensures forall a :: a in r <==> a in apps && IsScored(scores, a)
    ensures forall a :: multiset(r)[a] == if IsScored(scores, a) then multiset(apps)[a] else 0
    decreases |apps|
  {
    if |apps| == 0 then []
    else
      var rest := Scored(apps[1..], scores);
      assert apps == [apps[0]] + apps[1..];
      if IsScored(scores, apps[0]) then [apps[0]] + rest else rest
  }

  function Overall(scores: map<string, CandidateScore>, app: AdminApplication): real {
    if app.id in scores then scores[app.id].overallScore else 0.0
  }

  function TotalOverall(apps: seq<AdminApplication>, scores: map<string, CandidateScore>): real
    decreases |apps|
  {
    if |apps| == 0 then 0.0 else Overall(scores, apps[0]) + TotalOverall(apps[1..], scores)
  }

  /** Scores within [lo, hi] total within [n * lo, n * hi]. */
  lemma {:induction false} TotalBounds(apps: seq<AdminApplication>, scores: map<string, CandidateScore>, lo: real, hi: real)
    requires forall i :: 0 <= i < |apps| ==> lo <= Overall(scores, apps[i]) <= hi
    ensures lo * (|apps| as real) <= TotalOverall(apps, scores) <= hi * (|apps| as real)
    decreases |apps|
  {
    if |apps| > 0 {
      var rest := apps[1..];
      assert forall i :: 0 <= i < |rest| ==> rest[i] == apps[i + 1];
      TotalBounds(rest, scores, lo, hi);
      assert |apps| as real == |rest| as real + 1.0;
      AddBounds(lo, hi, |rest| as real, TotalOverall(rest, scores), Overall(scores, apps[0]));
    }
  }

  /** Adding one more value within [lo, hi] to a total of k such values. */
  lemma AddBounds(lo: real, hi: real, k: real, total: real, x: real)
    requires lo * k <= total <= hi * k && lo <= x <= hi
    ensures lo * (k + 1.0) <= x + total <= hi * (k + 1.0)
  {
    assert lo * (k + 1.0) == lo * k + lo;
    assert hi * (k + 1.0) == hi * k + hi;
  }

  /** `sum / count`, or 0 for nothing. */
  function Mean(total: real, count: nat): real {
    if count > 0 then total / (count as real) else 0.0
  }

  /** A mean of a total within [count * lo, count * hi] lies in [lo, hi]. */
  lemma MeanBounds(total: real, count: nat, lo: real, hi: real)
    requires count > 0 && lo * (count as real) <= total <= hi * (count as real)
    ensures lo <= Mean(total, count) <= hi
  {
    var n := count as real;
    assert (total / n) * n == total;
  }

  /** The mean overall score of the scored applications, 0 without any. */
  function Average(apps: seq<AdminApplication>, scores: map<string, CandidateScore>): (avg: real)
    ensures |Scored(apps, scores)| == 0 ==> avg == 0.0
  {
    var scored := Scored(apps, scores);
    Mean(TotalOverall(scored, scores), |scored|)
  }

  lemma ScoredInRange(apps: seq<AdminApplication>, scores: map<string, CandidateScore>, lo: real, hi: real)
    requires forall id :: id in scores ==> lo <= scores[id].overallScore <= hi
    ensures var scored := Scored(apps, scores);
            forall i :: 0 <= i < |scored| ==> lo <= Overall(scores, scored[i]) <= hi
  {
    var scored := Scored(apps, scores);
    forall i | 0 <= i < |scored| ensures lo <= Overall(scores, scored[i]) <= hi {
      assert scored[i] in scored;
    }
  }

  /** With every stored overall score in [lo, hi], so is the average of a
      non-empty scored list. */
  lemma AverageBounds(apps: seq<AdminApplication>, scores: map<string, CandidateScore>, lo: real, hi: real)
    requires forall id :: id in scores ==> lo <= scores[id].overallScore <= hi
    requires |Scored(apps, scores)| > 0
    ensures lo <= Average(apps, scores) <= hi
  {
    ScoredInRange(apps, scores, lo, hi);
    ListMeanBounds(Scored(apps, scores), scores, lo, hi);
  }

  /** The mean overall score of a non-empty list of scores in [lo, hi]
      lies in [lo, hi]. */
  lemma ListMeanBounds(xs: seq<AdminApplication>, scores: map<string, CandidateScore>, lo: real, hi: real)
    requires |xs| > 0 && forall i :: 0 <= i < |xs| ==> lo <= Overall(scores, xs[i]) <= hi
    ensures lo <= Mean(TotalOverall(xs, scores), |xs|) <= hi
  {
    TotalBounds(xs, scores, lo, hi);
    MeanBounds(TotalOverall(xs, scores), |xs|, lo, hi);
  }

  /** `Math.round(x)`: the nearest integer, halves rounded up. */
  function RoundHalfUp(x: real): (r: int)
    ensures r as real - 0.5 <= x < r as real + 0.5
  {
    (x + 0.5).Floor
  }

  /** The "Average Score" tile: `--` (None) unless the average is positive. */
  function AverageTile(apps: seq<AdminApplication>, scores: map<string, CandidateScore>): (t: Option<int>)
    ensures t.None? <==> Average(apps, scores) <= 0.0
    ensures t.Some? ==> t.value as real - 0.5 <= Average(apps, scores) < t.value as real + 0.5
    ensures |Scored(apps, scores)| == 0 ==> t.None?
  {
    var avg := Average(apps, scores);
    if avg > 0.0 then Some(RoundHalfUp(avg)) else None
  }

  /** The sort key of `b.overall - a.overall`. */
  function OverallKey(scores: map<string, CandidateScore>): AdminApplication -> real {
    a => Overall(scores, a)
  }

  /** The top candidates: the scored applications by overall score, best
      first, five of them (all, when fewer), and none of the scored ones
      left out outranks one kept. */
  function TopCandidates(apps: seq<AdminApplication>, scores: map<string, CandidateScore>): (top: seq<AdminApplication>)
    ensures |top| == (if |Scored(apps, scores)| < 5 then |Scored(apps, scores)| else 5)
    ensures Sorting.SortedDesc(top, OverallKey(scores))
    ensures multiset(top) <= multiset(Scored(apps, scores))
    ensures forall x :: x in multiset(Scored(apps, scores)) - multiset(top) ==>
              forall i :: 0 <= i < |top| ==> OverallKey(scores)(top[i]) >= OverallKey(scores)(x)
  {
    Sorting.TopIsBest(Scored(apps, scores), OverallKey(scores), 5);
    Sorting.Take(Sorting.SortDesc(Scored(apps, scores), OverallKey(scores)), 5)
  }

  /** Every top candidate is scored, and none of the scored applications
      left out outranks one kept. */
  lemma TopCandidatesAreBest(apps: seq<AdminApplication>, scores: map<string, CandidateScore>, t: AdminApplication, u: AdminApplication)
    requires t in TopCandidates(apps, scores)
    requires u in Scored(apps, scores) && u !in TopCandidates(apps, scores)
    ensures t in apps && IsScored(scores, t)
    ensures Overall(scores, t) >= Overall(scores, u)
  {
    var scored := Scored(apps, scores);
    var key := OverallKey(scores);
    var sorted := Sorting.SortDesc(scored, key);
    var top := TopCandidates(apps, scores);
    Sorting.TopIsBest(scored, key, 5);
    assert t in multiset(top);
    assert t in multiset(scored);
    assert u in multiset(sorted);
    var j :| 0 <= j < |sorted| && sorted[j] == u;
    var i :| 0 <= i < |top| && top[i] == t;
    assert top == sorted[..|top|];
    assert j >= |top|;
    assert key(top[i]) >= key(sorted[j]);
  }

  function CountAtLeast(xs: seq<AdminApplication>, scores: map<string, CandidateScore>, bar: real): (n: nat)
    ensures n <= |xs|
    decreases |xs|
  {
    if |xs| == 0 then 0
    else (if Overall(scores, xs[0]) >= bar then 1 else 0) + CountAtLeast(xs[1..], scores, bar)
  }

  /** The "Top Candidates" tile: the top entries scoring 80 or more. */
  function TopTile(apps: seq<AdminApplication>, scores: map<string, CandidateScore>): (n: nat)
    ensures n <= |TopCandidates(apps, scores)| <= 5
  {
    CountAtLeast(TopCandidates(apps, scores), scores, 80.0)
  }

  /** Since the list is sorted, the tile counts a prefix: exactly the first
      `n` top entries score 80 or more. */
  lemma {:induction false} CountSortedPrefix(xs: seq<AdminApplication>, scores: map<string, CandidateScore>, bar: real)
    requires Sorting.SortedDesc(xs, OverallKey(scores))
    ensures var n := CountAtLeast(xs, scores, bar);
            && (forall i :: 0 <= i < n ==> Overall(scores, xs[i]) >= bar)
            && (forall i :: n <= i < |xs| ==> Overall(scores, xs[i]) < bar)
    decreases |xs|
  {
    if |xs| > 0 {
      var key := OverallKey(scores);
      assert Sorting.SortedDesc(xs[1..], key) by {
        forall i, j | 0 <= i < j < |xs[1..]| ensures key(xs[1..][i]) >= key(xs[1..][j]) {
          assert xs[1..][i] == xs[i + 1] && xs[1..][j] == xs[j + 1];
        }
      }
      CountSortedPrefix(xs[1..], scores, bar);
      var m := CountAtLeast(xs[1..], scores, bar);
      if Overall(scores, xs[0]) >= bar {
        forall i | 0 <= i < m + 1 ensures Overall(scores, xs[i]) >= bar {
          if i > 0 { assert xs[i] == xs[1..][i - 1]; }
        }
        forall i | m + 1 <= i < |xs| ensures Overall(scores, xs[i]) < bar {
          assert xs[i] == xs[1..][i - 1];
        }
      } else {
        forall i | 0 <= i < |xs| ensures Overall(scores, xs[i]) < bar {
          assert key(xs[0]) >= key(xs[i]) || i == 0;
        }
        assert m == 0;
      }
    }
  }

  lemma TopTileCountsStrong(apps: seq<AdminApplication>, scores: map<string, CandidateScore>)
    ensures var top := TopCandidates(apps, scores);
            var n := TopTile(apps, scores);
            && (forall i :: 0 <= i < n ==> Overall(scores, top[i]) >= 80.0)
            && (forall i :: n <= i < |top| ==> Overall(scores, top[i]) < 80.0)
  {
    CountSortedPrefix(TopCandidates(apps, scores), scores, 80.0);
  }

  // ----- Per-candidate scoring state -----

  /** The three records the panel keeps, keyed by application id. */
  datatype Panel = Panel(
    scores: map<string, CandidateScore>,
    scoring: map<string, bool>,
    errors: map<string, string>)

  const FailedMessage := "Failed to score candidate. Please try again."

  /** Nothing recorded for `id` differs between the two panels. */
  predicate SameAt(p: Panel, q: Panel, id: string) {
    && (id in p.scores <==> id in q.scores) && (id in p.scores ==> p.scores[id] == q.scores[id])
    && (id in p.scoring <==> id in q.scoring) && (id in p.scoring ==> p.scoring[id] == q.scoring[id])
    && (id in p.errors <==> id in q.errors) && (id in p.errors ==> p.errors[id] == q.errors[id])
  }

  /** `handleScoreCandidate`: mark scoring, clear the error, store the
      score or the failure message, then unmark. */
  function ScoreOne(p: Panel, id: string, outcome: Option<CandidateScore>): (q: Panel)
    ensures forall other :: other != id ==> SameAt(p, q, other)
    ensures id in q.scoring && !q.scoring[id] && id in q.errors
    ensures outcome.Some? ==> id in q.scores && q.scores[id] == outcome.value && q.errors[id] == ""
    ensures outcome.None? ==> q.errors[id] == FailedMessage
                              && (id in q.scores <==> id in p.scores)
                              && (id in p.scores ==> q.scores[id] == p.scores[id])
  {
    var marked := p.(scoring := p.scoring[id := true]);
    var cleared := marked.(errors := marked.errors[id := ""]);
    var settled :=
      if outcome.Some? then cleared.(scores := cleared.scores[id := outcome.value])
      else cleared.(errors := cleared.errors[id := FailedMessage]);
    settled.(scoring := settled.scoring[id := false])
  }

  function IdOf(a: AdminApplication): string {
    a.id
  }

  /** The ids of the applications without a stored score, in list order. */
  function Unscored(apps: seq<AdminApplication>, scores: map<string, CandidateScore>): (ids: seq<string>)
    ensures |ids| <= |apps|
    ensures forall id :: id in ids <==> id !in scores && exists a :: a in apps && a.id == id
    decreases |apps|
  {
    if |apps| == 0 then []
    else
      var rest := Unscored(apps[1..], scores);
      assert forall a :: a in apps <==> a == apps[0] || a in apps[1..];
      if apps[0].id !in scores then [apps[0].id] + rest else rest
  }

  /** Each unscored id appears in `Unscored` exactly as often as among the applications' ids. */
  lemma {:induction false} UnscoredCounts(apps: seq<AdminApplication>, scores: map<string, CandidateScore>)
    ensures forall id :: multiset(Unscored(apps, scores))[id]
                         == if id in scores then 0 else multiset(Sorting.Map(apps, IdOf))[id]
    decreases |apps|
  {
    if |apps| > 0 {
      UnscoredCounts(apps[1..], scores);
      assert Sorting.Map(apps, IdOf) == [apps[0].id] + Sorting.Map(apps[1..], IdOf);
    }
  }

  /** The outcome recorded for `id` is the last one it received. */
  predicate Settled(q: Panel, id: string, outcome: Option<CandidateScore>) {
    && id in q.scoring && !q.scoring[id] && id in q.errors
    && (outcome.Some? ==> id in q.scores && q.scores[id] == outcome.value && q.errors[id] == "")
    && (outcome.None? ==> q.errors[id] == FailedMessage)
  }

  /** One turn of the loop keeps the loop's two facts. */
  lemma TurnKeepsSettled(p: Panel, q: Panel, ids: seq<string>, outcomes: seq<Option<CandidateScore>>, k: nat)
    requires k < |ids| && |outcomes| == |ids|
    requires forall i :: 0 <= i < k && (forall j :: i < j < k ==> ids[j] != ids[i]) ==> Settled(q, ids[i], outcomes[i])
    requires forall id :: id !in ids[..k] ==> SameAt(p, q, id)
    ensures var r := ScoreOne(q, ids[k], outcomes[k]);
            && (forall i :: 0 <= i < k + 1 && (forall j :: i < j < k + 1 ==> ids[j] != ids[i]) ==> Settled(r, ids[i], outcomes[i]))
            && (forall id :: id !in ids[..k + 1] ==> SameAt(p, r, id))
  {
    var r := ScoreOne(q, ids[k], outcomes[k]);
    assert ids[..k + 1] == ids[..k] + [ids[k]];
    forall i | 0 <= i < k && (forall j :: i < j < k + 1 ==> ids[j] != ids[i])
      ensures Settled(r, ids[i], outcomes[i])
    {
      assert ids[k] != ids[i];
      assert SameAt(q, r, ids[i]);
    }
  }

  /** `handleScoreAllCandidates`: the unscored ids are fixed first, then
      scored one at a time in list order, the i-th receiving `outcomes[i]`.
      Afterwards each of them holds the outcome of its last turn, and every
      other id is untouched. */
  method ScoreAll(apps: seq<AdminApplication>, p: Panel, outcomes: seq<Option<CandidateScore>>) returns (q: Panel)
    requires |outcomes| == |Unscored(apps, p.scores)|
    ensures var ids := Unscored(apps, p.scores);
            forall i :: 0 <= i < |ids| && (forall j :: i < j < |ids| ==> ids[j] != ids[i]) ==> Settled(q, ids[i], outcomes[i])
    ensures forall id :: id !in Unscored(apps, p.scores) ==> SameAt(p, q, id)
  {
    var ids := Unscored(apps, p.scores);
    q := p;
    var k := 0;
    while k < |ids|
      invariant 0 <= k <= |ids|
      invariant forall i :: 0 <= i < k && (forall j :: i < j < k ==> ids[j] != ids[i]) ==> Settled(q, ids[i], outcomes[i])
      invariant forall id :: id !in ids[..k] ==> SameAt(p, q, id)
    {
      TurnKeepsSettled(p, q, ids, outcomes, k);
      q := ScoreOne(q, ids[k], outcomes[k]);
      k := k + 1;
    }
    assert ids[..k] == ids;
  }
}
