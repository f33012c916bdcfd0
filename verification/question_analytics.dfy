/** Per-question analytics (supabase/functions/admin-question-analytics/index.ts):
    which question keys were answered, by how many applications, the most
    common normalised answers, the drop-off rate and a display label, most
    answered first. */
module QuestionAnalytics {
  import opened Wrappers
  import opened Types
  import opened AdminTypes
  import Strings
  import Sorting
  import Tally
  import ProgressIndicator

  /** One element of the reply. */
  datatype QuestionStats = QuestionStats(
    questionKey: string,
    questionLabel: string,
    responseCount: nat,
    averageResponseLength: int,
    commonResponses: seq<Tally.Entry>,
    dropOffRate: real)

  /** The fixed question labels. */
  const Labels: map<string, string> := map[
    "name" := "What is your full name?",
    "email" := "What is your email address?",
    "experience" := "How many years of experience do you have?",
    "technologies" := "Which technologies are you comfortable with?",
    "design_tools" := "Which design tools do you use regularly?",
    "project" := "Tell us about your most challenging project",
    "design_process" := "Describe your typical design process",
    "challenging_project" := "Tell us about your most challenging project",
    "availability" := "When would you be available to start?"]

  /** `questionLabels[key] || key.replace('_', ' ')`. */
  function Label(key: string): (l: string)
    ensures key in Labels ==> l == Labels[key]
    ensures key !in Labels ==> l == Strings.ReplaceFirst(key, '_', ' ')
  {
    if key in Labels && Labels[key] != "" then Labels[key] else Strings.ReplaceFirst(key, '_', ' ')
  }

  predicate HasKey(app: AdminApplication, k: string) {
    exists j :: 0 <= j < |app.answers| && app.answers[j].key == k
  }

  /** Every answer key, application by application, in order. */
  function AnswerKeys(apps: seq<AdminApplication>): (ks: seq<string>)
    ensures forall k :: k in ks <==> exists i :: 0 <= i < |apps| && HasKey(apps[i], k)
    decreases |apps|
  {
    if |apps| == 0 then []
    else
      var own := seq(|apps[0].answers|, j requires 0 <= j < |apps[0].answers| => apps[0].answers[j].key);
      var rest := AnswerKeys(apps[1..]);
      assert forall k :: k in own <==> HasKey(apps[0], k) by {
        forall k ensures k in own <==> HasKey(apps[0], k) {
          if HasKey(apps[0], k) {
            var j :| 0 <= j < |apps[0].answers| && apps[0].answers[j].key == k;
            assert own[j] == k;
          }
        }
      }
      assert forall i :: 1 <= i < |apps| ==> apps[1..][i - 1] == apps[i];
      own + rest
  }

  /** `new Set` of the keys: each answered key once, in order of first
      appearance. */
  function QuestionKeys(apps: seq<AdminApplication>): (ks: seq<string>)
    ensures forall k :: k in ks <==> k in AnswerKeys(apps)
    ensures forall i, j :: 0 <= i < j < |ks| ==> ks[i] != ks[j]
    ensures forall i, j :: 0 <= i < j < |ks| ==>
              Strings.FirstIndex(AnswerKeys(apps), ks[i]) < Strings.FirstIndex(AnswerKeys(apps), ks[j])
  {
    Tally.CountCorrect(AnswerKeys(apps));
    Tally.CountFirstSeen(AnswerKeys(apps));
    Tally.Values(Tally.Count(AnswerKeys(apps)))
  }

  /** `app.answers.find(a => a.key === key)`. */
  function FirstAnswer(answers: seq<Answer>, key: string): (r: Option<Answer>)
    ensures r.Some? <==> exists j :: 0 <= j < |answers| && answers[j].key == key
    ensures r.Some? ==> r.value.key == key && r.value in answers
    decreases |answers|
  {
    if |answers| == 0 then None
    else if answers[0].key == key then Some(answers[0])
    else
      var r := FirstAnswer(answers[1..], key);
      assert forall j :: 1 <= j < |answers| ==> answers[1..][j - 1] == answers[j];
      r
  }

  /** The positions of the applications that answered `key`, in list
      order. */
  function Answering(apps: seq<AdminApplication>, key: string): (ks: seq<nat>)
    ensures forall k :: 0 <= k < |ks| ==> ks[k] < |apps| && HasKey(apps[ks[k]], key)
    ensures forall k, l :: 0 <= k < l < |ks| ==> ks[k] < ks[l]
    ensures forall i :: 0 <= i < |apps| && HasKey(apps[i], key) ==> i in ks
    decreases |apps|
  {
    if |apps| == 0 then []
    else
      var init := apps[..|apps| - 1];
      assert forall i :: 0 <= i < |init| ==> init[i] == apps[i];
      Answering(init, key) + (if HasKey(apps[|apps| - 1], key) then [|apps| - 1] else [])
  }

  /** The applications that answered `key`, by position. */
  function AnsweredBy(apps: seq<AdminApplication>, key: string): set<nat> {
    set i | 0 <= i < |apps| && HasKey(apps[i], key)
  }

  /** One position per answering application. */
  lemma {:induction false} AnsweringCount(apps: seq<AdminApplication>, key: string)
    ensures |Answering(apps, key)| == |AnsweredBy(apps, key)|
    decreases |apps|
  {
    if |apps| > 0 {
      var init := apps[..|apps| - 1];
      AnsweringCount(init, key);
      AnsweredBySnoc(apps, key);
    }
  }

  /** Adding an application adds its position when it answered `key`. */
  lemma AnsweredBySnoc(apps: seq<AdminApplication>, key: string)
    requires |apps| > 0
    ensures var init, last := apps[..|apps| - 1], |apps| - 1;
            && last !in AnsweredBy(init, key)
            && AnsweredBy(apps, key) == AnsweredBy(init, key) + (if HasKey(apps[last], key) then {last} else {})
  {
    var init, last := apps[..|apps| - 1], |apps| - 1;
    forall i ensures i in AnsweredBy(apps, key) <==> i in AnsweredBy(init, key) || (i == last && HasKey(apps[last], key)) {
      if 0 <= i < |init| {
        assert init[i] == apps[i];
      }
    }
  }

  /** `map(find).filter(Boolean)`: the first answer to `key` of each
      application that answered it, one per such application, in list
      order. */
  function Responses(apps: seq<AdminApplication>, key: string): (rs: seq<Answer>)
    ensures |rs| <= |apps|
    ensures forall r :: r in rs ==> r.key == key
    ensures |rs| == |Answering(apps, key)|
    decreases |apps|
  {
    if |apps| == 0 then []
    else
      var init := apps[..|apps| - 1];
      var first := FirstAnswer(apps[|apps| - 1].answers, key);
      assert forall i :: 0 <= i < |init| ==> init[i] == apps[i];
      Responses(init, key) + (if first.Some? then [first.value] else [])
  }

  /** The `k`-th response is the first answer to `key` of the `k`-th
      application that answered it. */
  lemma {:induction false} ResponsesAreFirstAnswers(apps: seq<AdminApplication>, key: string)
    ensures forall k :: 0 <= k < |Answering(apps, key)| ==>
              FirstAnswer(apps[Answering(apps, key)[k]].answers, key) == Some(Responses(apps, key)[k])
    decreases |apps|
  {
    if |apps| > 0 {
      var init, last := apps[..|apps| - 1], |apps| - 1;
      ResponsesAreFirstAnswers(init, key);
      var ks0, rs0 := Answering(init, key), Responses(init, key);
      var ks, rs := Answering(apps, key), Responses(apps, key);
      var first := FirstAnswer(apps[last].answers, key);
      assert ks == ks0 + (if HasKey(apps[last], key) then [last] else []);
      assert rs == rs0 + (if first.Some? then [first.value] else []);
      assert first.Some? <==> HasKey(apps[last], key);
      forall k | 0 <= k < |ks| ensures FirstAnswer(apps[ks[k]].answers, key) == Some(rs[k]) {
        if k < |ks0| {
          assert ks[k] == ks0[k] && rs[k] == rs0[k];
          assert apps[ks0[k]] == init[ks0[k]];
        } else {
          assert HasKey(apps[last], key) && ks[k] == last;
          assert rs[k] == first.value;
        }
      }
    }
  }

  /** There are as many responses as applications that answered `key`,
      at least one when the key was answered. */
  lemma ResponseCount(apps: seq<AdminApplication>, key: string)
    requires key in AnswerKeys(apps)
    ensures 1 <= |Responses(apps, key)| == |AnsweredBy(apps, key)| <= |apps|
  {
    AnsweredKeyHasResponse(apps, key);
    AnsweringCount(apps, key);
  }

  /** A key someone answered has at least one response. */
  lemma AnsweredKeyHasResponse(apps: seq<AdminApplication>, key: string)
    requires key in AnswerKeys(apps)
    ensures |Responses(apps, key)| >= 1
  {
    var i :| 0 <= i < |apps| && HasKey(apps[i], key);
    assert i in Answering(apps, key);
  }

  /** `String(value).toLowerCase().trim()`. */
  function Normalise(a: Answer): string {
    Strings.Trim(Strings.ToLower(ValueText(a.value)))
  }

  function NormalisedValues(rs: seq<Answer>): (vs: seq<string>)
    ensures |vs| == |rs|
  {
    seq(|rs|, i requires 0 <= i < |rs| => Normalise(rs[i]))
  }

  function CountKey(e: Tally.Entry): real {
    e.count as real
  }

  /** The counts sorted by count, most frequent first: five of them (all,
      when fewer values differ), each the exact count of its value, and no
      value left out more frequent than one kept. */
  function CommonResponses(rs: seq<Answer>): (common: seq<Tally.Entry>)
    ensures var n := |Tally.Distinct(NormalisedValues(rs))|; |common| == if n < 5 then n else 5
    ensures Sorting.SortedDesc(common, CountKey)
    ensures forall e :: e in common ==> e.count >= 1 && e.count == multiset(NormalisedValues(rs))[e.value]
    ensures forall v :: v in NormalisedValues(rs) && (forall e :: e in common ==> e.value != v) ==>
              forall e :: e in common ==> multiset(NormalisedValues(rs))[v] <= e.count
    ensures Tally.Sum(common) <= |rs|
  {
    var vals := NormalisedValues(rs);
    var listed := Tally.Entries(Tally.Count(vals));
    var common := Sorting.Take(Sorting.SortDesc(listed, CountKey), 5);
    TopCounts(vals, listed, common);
    common
  }

  /** The five most frequent entries of a listing of a counting object:
      five (all, when fewer values differ), sorted, each an exact count,
      none left out more frequent than one kept, and together no more than
      the values counted. */
  lemma TopCounts(vals: seq<string>, listed: seq<Tally.Entry>, common: seq<Tally.Entry>)
    requires multiset(listed) == multiset(Tally.Count(vals))
    requires common == Sorting.Take(Sorting.SortDesc(listed, CountKey), 5)
    ensures var n := |Tally.Distinct(vals)|; |common| == if n < 5 then n else 5
    ensures Sorting.SortedDesc(common, CountKey)
    ensures forall e :: e in common ==> e.count >= 1 && e.count == multiset(vals)[e.value]
    ensures forall v :: v in vals && (forall e :: e in common ==> e.value != v) ==>
              forall e :: e in common ==> multiset(vals)[v] <= e.count
    ensures Tally.Sum(common) <= |vals|
  {
    TopCountsSize(vals, listed, common);
    TopCountsExact(vals, listed, common);
    LeftOutCountLower(vals, listed, common);
  }

  lemma TopCountsSize(vals: seq<string>, listed: seq<Tally.Entry>, common: seq<Tally.Entry>)
    requires multiset(listed) == multiset(Tally.Count(vals))
    requires common == Sorting.Take(Sorting.SortDesc(listed, CountKey), 5)
    ensures var n := |Tally.Distinct(vals)|; |common| == if n < 5 then n else 5
  {
    Sorting.TopIsBest(listed, CountKey, 5);
    assert |listed| == |multiset(listed)| == |Tally.Count(vals)|;
    Tally.CountSize(vals);
  }

  lemma TopCountsExact(vals: seq<string>, listed: seq<Tally.Entry>, common: seq<Tally.Entry>)
    requires multiset(listed) == multiset(Tally.Count(vals))
    requires common == Sorting.Take(Sorting.SortDesc(listed, CountKey), 5)
    ensures Sorting.SortedDesc(common, CountKey)
    ensures forall e :: e in common ==> e.count >= 1 && e.count == multiset(vals)[e.value]
    ensures Tally.Sum(common) <= |vals|
  {
    Sorting.TopIsBest(listed, CountKey, 5);
    assert multiset(common) <= multiset(Tally.Count(vals));
    CountedEntries(vals, common);
    Tally.CountedSum(vals, common);
  }

  lemma LeftOutCountLower(vals: seq<string>, listed: seq<Tally.Entry>, common: seq<Tally.Entry>)
    requires multiset(listed) == multiset(Tally.Count(vals))
    requires common == Sorting.Take(Sorting.SortDesc(listed, CountKey), 5)
    ensures forall v :: v in vals && (forall e :: e in common ==> e.value != v) ==>
              forall e :: e in common ==> multiset(vals)[v] <= e.count
  {
    Sorting.TopLeavesLower(listed, CountKey, 5);
    forall v | v in vals && (forall e :: e in common ==> e.value != v)
      ensures forall e :: e in common ==> multiset(vals)[v] <= e.count
    {
      LeftOutCountsLower(vals, listed, common, v);
    }
  }

  /** A value none of the kept entries holds occurs no more often than any
      kept entry's count, when the kept entries rank above the rest. */
  lemma LeftOutCountsLower(vals: seq<string>, listed: seq<Tally.Entry>, common: seq<Tally.Entry>, v: string)
    requires multiset(listed) == multiset(Tally.Count(vals))
    requires forall x :: x in multiset(listed) - multiset(common) ==>
               forall i :: 0 <= i < |common| ==> CountKey(common[i]) >= CountKey(x)
    requires v in vals && forall e :: e in common ==> e.value != v
    ensures forall e :: e in common ==> multiset(vals)[v] <= e.count
  {
    var t := Tally.Count(vals);
    Tally.CountCorrect(vals);
    var i :| 0 <= i < |t| && Tally.Values(t)[i] == v;
    var x := t[i];
    assert x in multiset(listed);
    assert x !in common;
    assert x in multiset(listed) - multiset(common);
    forall e | e in common ensures multiset(vals)[v] <= e.count {
      var k :| 0 <= k < |common| && common[k] == e;
    }
  }

  /** Entries drawn from the counting object hold their values' numbers of
      occurrences, at least one each. */
  lemma CountedEntries(vals: seq<string>, es: seq<Tally.Entry>)
    requires multiset(es) <= multiset(Tally.Count(vals))
    ensures forall e :: e in es ==> e.count >= 1 && e.count == multiset(vals)[e.value]
  {
    forall e | e in es ensures e.count >= 1 && e.count == multiset(vals)[e.value] {
      assert e in multiset(es);
      CountedEntry(vals, e);
    }
  }

  /** An entry of the counting object holds its value's number of
      occurrences, at least one. */
  lemma CountedEntry(vals: seq<string>, e: Tally.Entry)
    requires e in multiset(Tally.Count(vals))
    ensures e.count >= 1 && e.count == multiset(vals)[e.value]
  {
    var counted := Tally.Count(vals);
    Tally.CountCorrect(vals);
    var i :| 0 <= i < |counted| && counted[i] == e;
  }

  /** `Math.max(0, (n - responseCount) / n * 100)`, exactly; the clamp
      never applies when no more applications responded than there are. */
  function DropOffRate(total: nat, responses: nat): (d: real)
    requires total > 0
    ensures 1 <= responses <= total ==> 0.0 <= d < 100.0
    ensures responses <= total ==> d == ((total - responses) as real) * 100.0 / (total as real)
  {
    var d := ((total - responses) as real) * 100.0 / (total as real);
    if d < 0.0 then 0.0 else d
  }

  function TextLengths(rs: seq<Answer>): nat
    decreases |rs|
  {
    if |rs| == 0 then 0 else |ValueText(rs[0].value)| + TextLengths(rs[1..])
  }

  /** The statistics of one answered key. */
  function Analyse(apps: seq<AdminApplication>, key: string): (s: QuestionStats)
    requires key in AnswerKeys(apps)
    ensures s.questionKey == key && s.questionLabel == Label(key)
    ensures s.responseCount == |AnsweredBy(apps, key)|
    ensures 1 <= s.responseCount <= |apps|
    ensures s.dropOffRate == DropOffRate(|apps|, s.responseCount) && 0.0 <= s.dropOffRate < 100.0
    ensures |s.commonResponses| <= 5 && Tally.Sum(s.commonResponses) <= s.responseCount
    ensures forall e :: e in s.commonResponses ==> e.count >= 1
    ensures Sorting.SortedDesc(s.commonResponses, CountKey)
  {
    var rs := Responses(apps, key);
    ResponseCount(apps, key);
    QuestionStats(key, Label(key), |rs|, ProgressIndicator.Round(TextLengths(rs), |rs|),
                  CommonResponses(rs), DropOffRate(|apps|, |rs|))
  }

  /** The drop-off rate is the share of applications, in percent, that
      did not answer the key. */
  lemma DropOffIsUnanswered(apps: seq<AdminApplication>, key: string)
    requires key in AnswerKeys(apps)
    ensures var s := Analyse(apps, key);
            s.dropOffRate == ((|apps| - |AnsweredBy(apps, key)|) as real) * 100.0 / (|apps| as real)
  {
    var s := Analyse(apps, key);
    assert s.dropOffRate == DropOffRate(|apps|, |AnsweredBy(apps, key)|);
  }

  function ResponseCountKey(s: QuestionStats): real {
    s.responseCount as real
  }

  /** The statistics of every answered key, in key order. */
  function Stats(apps: seq<AdminApplication>): (stats: seq<QuestionStats>)
    ensures |stats| == |QuestionKeys(apps)|
    ensures forall i :: 0 <= i < |stats| ==> stats[i] == Analyse(apps, QuestionKeys(apps)[i])
  {
    var keys := QuestionKeys(apps);
    seq(|keys|, i requires 0 <= i < |keys| => Analyse(apps, keys[i]))
  }

  function QuestionKeyOf(s: QuestionStats): string {
    s.questionKey
  }

  /** The reply: the statistics of every answered key, most answered
      first. */
  function Analytics(apps: seq<AdminApplication>): (r: seq<QuestionStats>)
    ensures Sorting.SortedDesc(r, ResponseCountKey)
    ensures multiset(r) == multiset(Stats(apps))
  {
    Sorting.SortDesc(Stats(apps), ResponseCountKey)
  }

  /** The reported keys are the answered keys, each exactly once (the
      question keys are pairwise distinct). */
  lemma KeysReportedOnce(apps: seq<AdminApplication>)
    ensures multiset(Sorting.Map(Analytics(apps), QuestionKeyOf)) == multiset(QuestionKeys(apps))
    ensures forall k :: k in Sorting.Map(Analytics(apps), QuestionKeyOf) <==> k in AnswerKeys(apps)
  {
    StatsKeys(apps);
    Sorting.MapPermutes(Analytics(apps), Stats(apps), QuestionKeyOf);
    Sorting.SameMembers(Sorting.Map(Analytics(apps), QuestionKeyOf), QuestionKeys(apps));
  }

  /** The statistics come in question-key order. */
  lemma StatsKeys(apps: seq<AdminApplication>)
    ensures Sorting.Map(Stats(apps), QuestionKeyOf) == QuestionKeys(apps)
  {
  }

  /** Every reported entry is the analysis of its own key. */
  lemma EntriesAreAnalyses(apps: seq<AdminApplication>, s: QuestionStats)
    requires s in Analytics(apps)
    ensures s.questionKey in AnswerKeys(apps) && s == Analyse(apps, s.questionKey)
  {
    var stats := Stats(apps);
    var keys := QuestionKeys(apps);
    assert multiset(Analytics(apps)) == multiset(stats);
    assert s in multiset(stats);
    assert s in stats;
    var i :| 0 <= i < |stats| && stats[i] == s;
    assert keys[i] in keys;
    assert s == Analyse(apps, keys[i]);
  }
}
