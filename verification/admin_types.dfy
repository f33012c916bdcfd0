/** The admin-side records (src/types/admin.ts) and the answer lookups
    the admin functions share. Stored applications come from the database,
    so role and status are plain strings there. */
module AdminTypes {
  import opened Wrappers
  import opened Types

  datatype AdminApplication = AdminApplication(
    id: string,
    role: string,
    answers: seq<Answer>,
    createdAt: string,
    updatedAt: string,
    score: Option<real>,
    status: Option<string>)

  datatype DropOffPoint = DropOffPoint(questionKey: string, dropOffRate: real)

  datatype CandidateScore = CandidateScore(
    applicationId: string,
    overallScore: real,
    skillsScore: real,
    experienceScore: real,
    communicationScore: real,
    cultureFitScore: real,
    reasoning: string)

  /** `answers.reduce((acc, a) => { acc[a.key] = a.value; ... }, {})`:
      a key maps to the value of its last answer. */
  function Flatten(answers: seq<Answer>): (m: map<string, Value>)
    ensures forall k :: k in m <==> exists i :: 0 <= i < |answers| && answers[i].key == k
    decreases |answers|
  {
    if |answers| == 0 then map[]
    else
      var last := answers[|answers| - 1];
      var m := Flatten(answers[..|answers| - 1]);
      assert forall i :: 0 <= i < |answers| - 1 ==> answers[..|answers| - 1][i] == answers[i];
      m[last.key := last.value]
  }

  /** The flattened value of a key is the value of the last answer with that
      key: later duplicates overwrite earlier ones. */
  lemma {:induction false} FlattenLastWins(answers: seq<Answer>, i: nat)
    requires i < |answers|
    requires forall j :: i < j < |answers| ==> answers[j].key != answers[i].key
    ensures answers[i].key in Flatten(answers) && Flatten(answers)[answers[i].key] == answers[i].value
    decreases |answers|
  {
    if i < |answers| - 1 {
      var init := answers[..|answers| - 1];
      FlattenLastWins(init, i);
    }
  }

  /** `answers.x || answers.y || ... || fallback`: the first key whose
      flattened value is present and truthy, else the fallback. */
  function FirstTruthy(m: map<string, Value>, keys: seq<string>, fallback: string): (r: string)
    ensures r == fallback ||
            exists i :: 0 <= i < |keys| && keys[i] in m && !IsFalsy(m[keys[i]]) && r == ValueText(m[keys[i]])
    ensures (forall i :: 0 <= i < |keys| ==> keys[i] !in m || IsFalsy(m[keys[i]])) ==> r == fallback
    ensures |keys| > 0 && keys[0] in m && !IsFalsy(m[keys[0]]) ==> r == ValueText(m[keys[0]])
    ensures forall i :: 0 <= i < |keys| && keys[i] in m && !IsFalsy(m[keys[i]])
                        && (forall j :: 0 <= j < i ==> keys[j] !in m || IsFalsy(m[keys[j]])) ==>
              r == ValueText(m[keys[i]])
  {
    if |keys| == 0 then fallback
    else if keys[0] in m && !IsFalsy(m[keys[0]]) then ValueText(m[keys[0]])
    else
      var r := FirstTruthy(m, keys[1..], fallback);
      assert forall i :: 0 <= i < |keys| - 1 ==> keys[1..][i] == keys[i + 1];
      r
  }

  /** `app.status || 'pending'`. */
  function StatusOrPending(app: AdminApplication): (s: string)
    ensures app.status.Some? && app.status.value != "" ==> s == app.status.value
    ensures app.status.None? || app.status.value == "" ==> s == "pending"
  {
    if app.status.Some? && app.status.value != "" then app.status.value else "pending"
  }

  /** A `Math.random()` draw. */
  predicate IsDraw(r: real) {
    0.0 <= r < 1.0
  }

  /** `Math.floor(Math.random() * 40) + 60`, the mock score both admin
      functions use. */
  function MockScore(r: real): (s: int)
    requires IsDraw(r)
    ensures 60 <= s <= 99
  {
    (r * 40.0).Floor + 60
  }
}
