/** The dashboard summary (supabase/functions/admin-analytics/index.ts).
    The `Math.random()` draws it makes enter as parameters, each in [0, 1). */
module AdminAnalytics {
  import opened Wrappers
  import opened AdminTypes
  import Sorting
  import Tally

  datatype Summary = Summary(
    totalApplications: nat,
    applicationsByRole: seq<Tally.Entry>,
    completionRate: int,
    averageCompletionTime: int,
    dropOffPoints: seq<DropOffPoint>,
    recentApplications: seq<AdminApplication>,
    topCandidates: seq<AdminApplication>)

  const DropOffKeys: seq<string> := ["name", "email", "experience", "technologies", "project", "availability"]

  function Roles(apps: seq<AdminApplication>): (rs: seq<string>)
    ensures |rs| == |apps| && forall i :: 0 <= i < |apps| ==> rs[i] == apps[i].role
  {
    seq(|apps|, i requires 0 <= i < |apps| => apps[i].role)
  }

  /** The role histogram: an entry for each role that occurs, with the
      number of its applications; the entries add up to the total. */
  function ByRole(apps: seq<AdminApplication>): (h: seq<Tally.Entry>)
    ensures Tally.DistinctValues(h) && Tally.Sum(h) == |apps|
    ensures forall role :: role in Tally.Values(h) <==> role in Roles(apps)
    ensures forall e :: e in h ==> e.count >= 1 && e.count == multiset(Roles(apps))[e.value]
    ensures Tally.FirstSeenOrder(h, Roles(apps))
  {
    Tally.CountCorrect(Roles(apps));
    Tally.CountFirstSeen(Roles(apps));
    var h := Tally.Count(Roles(apps));
    assert forall e :: e in h ==> exists i :: 0 <= i < |h| && h[i] == e;
    h
  }

  /** `(6 - index) * 2 + Math.random() * 5`, floored at zero. */
  function DropRate(index: nat, r: real): (rate: real)
    requires index < 6 && IsDraw(r)
    ensures ((6 - index) * 2) as real <= rate < ((6 - index) * 2 + 5) as real
  {
    var rate := ((6 - index) * 2) as real + r * 5.0;
    if rate < 0.0 then 0.0 else rate
  }

  /** The mock drop-off points, one per fixed key, steepest first. */
  function DropOffPoints(draws: seq<real>): (ps: seq<DropOffPoint>)
    requires |draws| == |DropOffKeys| && forall i :: 0 <= i < |draws| ==> IsDraw(draws[i])
    ensures |ps| == |DropOffKeys|
    ensures forall i :: 0 <= i < |ps| ==> ps[i].questionKey == DropOffKeys[i]
    ensures forall i :: 0 <= i < |ps| ==> ((6 - i) * 2) as real <= ps[i].dropOffRate < ((6 - i) * 2 + 5) as real
    ensures forall i, j :: 0 <= i < j < |ps| ==> ps[j].dropOffRate < ps[i].dropOffRate + 5.0
  {
    assert |DropOffKeys| == 6;
    seq(|DropOffKeys|, i requires 0 <= i < |DropOffKeys| => DropOffPoint(DropOffKeys[i], DropRate(i, draws[i])))
  }

  function ScoreKey(app: AdminApplication): real {
    app.score.GetOr(0.0)
  }

  /** Every application with a mock score in place of its own. */
  function MockScored(apps: seq<AdminApplication>, draws: seq<real>): (scored: seq<AdminApplication>)
    requires |draws| == |apps| && forall i :: 0 <= i < |draws| ==> IsDraw(draws[i])
    ensures |scored| == |apps|
    ensures forall i :: 0 <= i < |apps| ==> scored[i] == apps[i].(score := Some(MockScore(draws[i]) as real))
  {
    seq(|apps|, i requires 0 <= i < |apps| => apps[i].(score := Some(MockScore(draws[i]) as real)))
  }

  /** `.sort((a, b) => b.score - a.score).slice(0, 5)` of the mock-scored
      applications: five of them (all, when fewer), best first, and none
      left out scores higher than one kept. */
  function TopOf(apps: seq<AdminApplication>, draws: seq<real>): (top: seq<AdminApplication>)
    requires |draws| == |apps| && forall i :: 0 <= i < |draws| ==> IsDraw(draws[i])
    ensures |top| == (if |apps| < 5 then |apps| else 5) && Sorting.SortedDesc(top, ScoreKey)
    ensures multiset(top) <= multiset(MockScored(apps, draws))
    ensures forall x :: x in multiset(MockScored(apps, draws)) - multiset(top) ==>
              forall i :: 0 <= i < |top| ==> ScoreKey(top[i]) >= ScoreKey(x)
  {
    Sorting.TopIsBest(MockScored(apps, draws), ScoreKey, 5);
    Sorting.Take(Sorting.SortDesc(MockScored(apps, draws), ScoreKey), 5)
  }

  /** The summary, with six drop-off draws and one score draw per
      application. */
  function Summarise(apps: seq<AdminApplication>, dropDraws: seq<real>, scoreDraws: seq<real>): (s: Summary)
    requires |dropDraws| == |DropOffKeys| && forall i :: 0 <= i < |dropDraws| ==> IsDraw(dropDraws[i])
    requires |scoreDraws| == |apps| && forall i :: 0 <= i < |scoreDraws| ==> IsDraw(scoreDraws[i])
    ensures s.totalApplications == |apps| && s.completionRate == 100
    ensures Tally.Sum(s.applicationsByRole) == s.totalApplications
    ensures s.recentApplications == (if |apps| <= 10 then apps else apps[..10])
    ensures s.topCandidates == TopOf(apps, scoreDraws)
    ensures s.applicationsByRole == ByRole(apps) && s.dropOffPoints == DropOffPoints(dropDraws)
    ensures s.averageCompletionTime == 12
  {
    Summary(|apps|, ByRole(apps), 100, 12, DropOffPoints(dropDraws), Sorting.Take(apps, 10), TopOf(apps, scoreDraws))
  }

  /** Each top candidate is one of the applications, carrying a mock
      score between 60 and 99. */
  lemma TopCandidates(apps: seq<AdminApplication>, draws: seq<real>, c: AdminApplication)
    requires |draws| == |apps| && forall i :: 0 <= i < |draws| ==> IsDraw(draws[i])
    requires c in TopOf(apps, draws)
    ensures exists i :: 0 <= i < |apps| && c == apps[i].(score := c.score)
    ensures c.score.Some? && 60.0 <= c.score.value <= 99.0
  {
    var scored := MockScored(apps, draws);
    var top := TopOf(apps, draws);
    assert c in multiset(top);
    assert c in multiset(scored);
    var i :| 0 <= i < |scored| && scored[i] == c;
    assert c == apps[i].(score := c.score);
  }
}
