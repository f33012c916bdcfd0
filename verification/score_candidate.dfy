/** AI scoring of one application (supabase/functions/admin-score-candidate/index.ts):
    the language model's reply is checked for the six required fields, its
    five scores are forced into [0, 100], and any failure falls back to mock
    scores. The model reply and the `Math.random()` draws are parameters. */
module ScoreCandidate {
  import opened Wrappers
  import opened Json
  import opened AdminTypes
  import Strings

  // ----- `parseInt(s)` with no radix argument -----

  predicate IsHexDigit(c: char) {
    Strings.IsDigit(c) || 'a' <= c <= 'f' || 'A' <= c <= 'F'
  }

  predicate IsRadixDigit(c: char, hex: bool) {
    if hex then IsHexDigit(c) else Strings.IsDigit(c)
  }

  function HexDigitOf(c: char): (d: nat)
    requires IsHexDigit(c)
    ensures d < 16
  {
    if Strings.IsDigit(c) then Strings.DigitOf(c)
    else if 'a' <= c <= 'f' then c as int - 'a' as int + 10
    else c as int - 'A' as int + 10
  }

  function HexValue(d: string): nat
    requires forall i :: 0 <= i < |d| ==> IsHexDigit(d[i])
  {
    if |d| == 0 then 0 else 16 * HexValue(d[..|d| - 1]) + HexDigitOf(d[|d| - 1])
  }

  /** The longest prefix of `s` made of digits of the radix. */
  function DigitRun(s: string, hex: bool): (d: string)
    ensures |d| <= |s| && d == s[..|d|]
    ensures forall i :: 0 <= i < |d| ==> IsRadixDigit(d[i], hex)
    ensures |d| < |s| ==> !IsRadixDigit(s[|d|], hex)
    decreases |s|
  {
    if |s| > 0 && IsRadixDigit(s[0], hex) then [s[0]] + DigitRun(s[1..], hex) else []
  }

  /** An unsigned numeral: a `0x` or `0X` prefix switches to base 16,
      then the longest run of digits counts; None is NaN. */
  function Unsigned(u: string): (r: Option<nat>)
    ensures r.Some? ==> |u| > 0
  {
    var hex := |u| >= 2 && u[0] == '0' && (u[1] == 'x' || u[1] == 'X');
    var d := DigitRun(if hex then u[2..] else u, hex);
    if |d| == 0 then None
    else Some(if hex then HexValue(d) else Strings.DigitsValue(d))
  }

  /** `parseInt` after the leading white space: an optional sign, then an
      unsigned numeral. */
  function ParseTrimmed(t: string): (r: Option<int>)
  {
    var negative := |t| > 0 && t[0] == '-';
    var u := Unsigned(if |t| > 0 && (t[0] == '-' || t[0] == '+') then t[1..] else t);
    if u.None? then None else Some(if negative then 0 - u.value else u.value)
  }

  /** `parseInt(s)`; None is NaN. */
  function ParseInt(s: string): (r: Option<int>)
  {
    ParseTrimmed(Strings.TrimStart(s))
  }

  lemma {:induction false} TrimStartSkips(ws: string, rest: string)
    requires forall i :: 0 <= i < |ws| ==> Strings.IsJsWhitespace(ws[i])
    requires |rest| > 0 && !Strings.IsJsWhitespace(rest[0])
    ensures Strings.TrimStart(ws + rest) == rest
    decreases |ws|
  {
    if |ws| > 0 {
      assert (ws + rest)[1..] == ws[1..] + rest;
      TrimStartSkips(ws[1..], rest);
    } else {
      assert ws + rest == rest;
    }
  }

  lemma {:induction false} DigitRunStops(d: string, tail: string)
    requires forall i :: 0 <= i < |d| ==> Strings.IsDigit(d[i])
    requires |tail| == 0 || !Strings.IsDigit(tail[0])
    ensures DigitRun(d + tail, false) == d
    decreases |d|
  {
    if |d| > 0 {
      assert (d + tail)[1..] == d[1..] + tail;
      DigitRunStops(d[1..], tail);
      assert d == [d[0]] + d[1..];
    } else {
      assert d + tail == tail;
    }
  }

  /** A printed natural number reads back as itself, up to the first
      character that cannot continue it. */
  lemma UnsignedRoundTrip(m: nat, tail: string)
    requires |tail| == 0 || (!Strings.IsDigit(tail[0]) && tail[0] != 'x' && tail[0] != 'X')
    ensures Unsigned(Strings.NatToString(m) + tail) == Some(m)
  {
    var digits := Strings.NatToString(m);
    var u := digits + tail;
    if m == 0 {
      assert digits == ['0'];
      assert |u| >= 2 ==> u[1] == tail[0];
    } else {
      assert u[0] == digits[0] != '0';
    }
    DigitRunStops(digits, tail);
    Strings.NatToStringRoundTrip(m);
  }

  lemma NegativeSign(u: string)
    ensures ParseTrimmed(['-'] + u) == if Unsigned(u).None? then None else Some(0 - Unsigned(u).value)
  {
    assert (['-'] + u)[1..] == u;
  }

  lemma NoSign(u: string)
    requires |u| > 0 && Strings.IsDigit(u[0])
    ensures ParseTrimmed(u) == if Unsigned(u).None? then None else Some(Unsigned(u).value as int)
  {
  }

  /** A printed integer reads back as itself, up to the first character
      that cannot continue it. */
  lemma PrintedRoundTrip(n: int, tail: string)
    requires |tail| == 0 || (!Strings.IsDigit(tail[0]) && tail[0] != 'x' && tail[0] != 'X')
    ensures ParseTrimmed(Strings.IntToString(n) + tail) == Some(n)
  {
    var m: nat := if n >= 0 then n else -n;
    var digits := Strings.NatToString(m);
    UnsignedRoundTrip(m, tail);
    if n < 0 {
      assert Strings.IntToString(n) + tail == ['-'] + (digits + tail);
      NegativeSign(digits + tail);
    } else {
      assert Strings.IntToString(n) + tail == digits + tail;
      NoSign(digits + tail);
    }
  }

  /** Reading back a printed integer: white space before it is skipped too. */
  lemma ParseIntRoundTrip(ws: string, n: int, tail: string)
    requires forall i :: 0 <= i < |ws| ==> Strings.IsJsWhitespace(ws[i])
    requires |tail| == 0 || (!Strings.IsDigit(tail[0]) && tail[0] != 'x' && tail[0] != 'X')
    ensures ParseInt(ws + Strings.IntToString(n) + tail) == Some(n)
  {
    var rest := Strings.IntToString(n) + tail;
    assert ws + Strings.IntToString(n) + tail == ws + rest;
    assert rest[0] == Strings.IntToString(n)[0];
    TrimStartSkips(ws, rest);
    PrintedRoundTrip(n, tail);
  }

  /** Text without a single digit is NaN (`"true"`, `"null"`,
      `"[object Object]"`, `"N/A"`). */
  lemma ParseIntWithoutDigits(s: string)
    requires forall i :: 0 <= i < |s| ==> !Strings.IsDigit(s[i])
    ensures ParseInt(s) == None
  {
    var t := Strings.TrimStart(s);
    var u := if |t| > 0 && (t[0] == '-' || t[0] == '+') then t[1..] else t;
    assert forall i :: 0 <= i < |u| ==> u[i] in s;
    if |u| > 0 {
      assert u[0] in s;
    }
    assert Unsigned(u) == None;
    assert ParseTrimmed(t) == None;
  }

  // ----- Score normalisation -----

  const ApplicationId := "applicationId"
  const OverallScore := "overallScore"
  const SkillsScore := "skillsScore"
  const ExperienceScore := "experienceScore"
  const CommunicationScore := "communicationScore"
  const CultureFitScore := "cultureFitScore"
  const Reasoning := "reasoning"

  const ScoreFields: seq<string> := [OverallScore, SkillsScore, ExperienceScore, CommunicationScore, CultureFitScore]
  const RequiredFields: seq<string> := ScoreFields + [Reasoning]

  const NotConfiguredReasoning := "Mock scoring - Groq API not configured. This candidate shows potential based on their responses."
  const UnavailableReasoning := "AI scoring temporarily unavailable. This is a placeholder assessment based on application completeness and basic criteria."

  /** `typeof score === 'number' && 0 <= score <= 100`. */
  predicate InRange(v: Json) {
    v.JNum? && 0.0 <= v.n <= 100.0
  }

  /** `parseInt(String(n))` for a number printed in fixed notation: the
      integer part, truncated toward zero. */
  function Truncate(n: real): (t: int)
    ensures n >= 0.0 ==> t as real <= n < t as real + 1.0
    ensures n < 0.0 ==> t as real - 1.0 < n <= t as real
  {
    if n >= 0.0 then n.Floor else -((-n).Floor)
  }

  /** `parseInt(score)` of a value other than an in-range number; None is
      NaN. Booleans, `null` and objects print without digits. */
  function ParseScore(v: Json): Option<int> {
    match v
    case JNum(n) => Some(Truncate(n))
    case JStr(s) => ParseInt(s)
    case _ => None
  }

  /** `Math.max(0, Math.min(100, parsed || 50))`: NaN and zero become 50. */
  function Clamp(parsed: Option<int>): (c: int)
    ensures 0 <= c <= 100
    ensures parsed.None? || parsed == Some(0) ==> c == 50
    ensures parsed.Some? && 0 < parsed.value <= 100 ==> c == parsed.value
    ensures parsed.Some? && parsed.value > 100 ==> c == 100
    ensures parsed.Some? && parsed.value < 0 ==> c == 0
  {
    var x := if parsed.None? || parsed.value == 0 then 50 else parsed.value;
    if x > 100 then 100 else if x < 0 then 0 else x
  }

  /** One score field after the range check. A value out of range goes to
      `parseInt`, which first converts it to text, so it must print (see
      `ScoresPrint`). */
  function ScoreField(v: Json): (r: Json)
    requires Printable(v)
    ensures InRange(r)
    ensures InRange(v) ==> r == v
  {
    if InRange(v) then v else JNum(Clamp(ParseScore(v)) as real)
  }

  /** Numbers outside the range: above 100 gives 100, at or below -1 gives
      0, and a negative fraction truncates to zero and so gives 50. */
  lemma ScoreFieldNumbers(n: real)
    ensures n > 100.0 ==> ScoreField(JNum(n)) == JNum(100.0)
    ensures n <= -1.0 ==> ScoreField(JNum(n)) == JNum(0.0)
    ensures -1.0 < n < 0.0 ==> ScoreField(JNum(n)) == JNum(50.0)
  {
  }

  /** A string score is clamped as `parseInt` reads it. */
  lemma ScoreFieldText(s: string, k: Option<int>)
    requires ParseInt(s) == k
    ensures ScoreField(JStr(s)) == JNum(Clamp(k) as real)
  {
  }

  /** A printed integer in a string is clamped into the range, except that
      zero becomes 50: `"0"` scores 50, `"85"` scores 85, `"150"` 100. */
  lemma ScoreFieldStrings(n: int)
    ensures ScoreField(JStr(Strings.IntToString(n))) == JNum(Clamp(Some(n)) as real)
    ensures n == 0 ==> ScoreField(JStr(Strings.IntToString(n))) == JNum(50.0)
  {
    var s := Strings.IntToString(n);
    ParseIntRoundTrip([], n, []);
    assert [] + s + [] == s;
    ScoreFieldText(s, Some(n));
  }

  /** Non-numeric text scores 50. */
  lemma ScoreFieldNoDigits(s: string)
    requires forall i :: 0 <= i < |s| ==> !Strings.IsDigit(s[i])
    ensures ScoreField(JStr(s)) == JNum(50.0)
  {
    ParseIntWithoutDigits(s);
    ScoreFieldText(s, None);
  }

  /** The loop over the five score fields runs to the end: `parseInt`
      converts each score that is not an in-range number to text, and that
      throws on an object with its own `toString` or an array holding one.
      An in-range number always prints. */
  predicate ScoresPrint(fields: map<string, Json>) {
    forall f :: f in ScoreFields && f in fields ==> Printable(fields[f])
  }

  /** The parsed object after the loop over the five score fields, when the
      loop completes: those fields are normalised, every other property is
      kept. */
  function Normalised(fields: map<string, Json>): (m: map<string, Json>)
    requires ScoresPrint(fields)
    ensures m.Keys == fields.Keys
    ensures forall k :: k in m && k in ScoreFields ==> InRange(m[k])
    ensures forall k :: k in m && k in ScoreFields && InRange(fields[k]) ==> m[k] == fields[k]
    ensures forall k :: k in m && k !in ScoreFields ==> m[k] == fields[k]
  {
    map k | k in fields :: if k in ScoreFields then ScoreField(fields[k]) else fields[k]
  }

  /** Every required field is present (`field in parsedResponse`); on a
      value that is not an object the check throws or fails. */
  predicate HasRequired(parsed: Json) {
    parsed.JObj? && forall f :: f in RequiredFields ==> f in parsed.fields
  }

  /** The reply survives the whole `try`: every required field is there and
      every score field converts to text. Any other parsed reply ends in the
      `catch` with the placeholder. */
  predicate Accepted(parsed: Json) {
    HasRequired(parsed) && ScoresPrint(parsed.fields)
  }

  /** The placeholder result, with five draws for the five scores. */
  function Mock(id: string, draws: seq<real>, reasoning: string): (m: map<string, Json>)
    requires |draws| == 5 && forall i :: 0 <= i < 5 ==> IsDraw(draws[i])
    ensures m.Keys == {ApplicationId, Reasoning} + set f | f in ScoreFields
    ensures m[ApplicationId] == JStr(id) && m[Reasoning] == JStr(reasoning)
    ensures forall i :: 0 <= i < 5 ==> m[ScoreFields[i]] == JNum(MockScore(draws[i]) as real)
  {
    map[ApplicationId := JStr(id),
        OverallScore := JNum(MockScore(draws[0]) as real),
        SkillsScore := JNum(MockScore(draws[1]) as real),
        ExperienceScore := JNum(MockScore(draws[2]) as real),
        CommunicationScore := JNum(MockScore(draws[3]) as real),
        CultureFitScore := JNum(MockScore(draws[4]) as real),
        Reasoning := JStr(reasoning)]
  }

  /** The outcome of the model call: no API key, a failure (the request
      throws, the reply has no content, or `JSON.parse` throws), or the
      parsed reply. */
  datatype ModelReply = NotConfigured | CallFailed | Replied(parsed: Json)

  /** `{ applicationId: application.id, ...parsedResponse }` as written:
      the spread comes last, so a reply property of the same name wins. */
  function SpreadAsWritten(id: string, fields: map<string, Json>): (m: map<string, Json>)
    requires ScoresPrint(fields)
    ensures m.Keys == fields.Keys + {ApplicationId}
    ensures ApplicationId !in fields ==> m[ApplicationId] == JStr(id)
    ensures ApplicationId in fields ==> m[ApplicationId] == Normalised(fields)[ApplicationId]
  {
    map[ApplicationId := JStr(id)] + Normalised(fields)
  }

  /** The result with the requested id set after the reply's properties. */
  function Spread(id: string, fields: map<string, Json>): (m: map<string, Json>)
    requires ScoresPrint(fields)
    ensures m.Keys == fields.Keys + {ApplicationId}
    ensures m[ApplicationId] == JStr(id)
    ensures forall k :: k in fields && k != ApplicationId ==> m[k] == Normalised(fields)[k]
  {
    Normalised(fields)[ApplicationId := JStr(id)]
  }

  /** `scoreCandidate` as written. The result always holds an id, a
      reasoning and five in-range scores; the id is the requested one unless
      an accepted reply names its own. An accepted reply keeps its
      reasoning and in-range scores; otherwise every score is a mock score
      in [60, 99], with the reasoning telling which fallback ran. */
  function ScoreAsWritten(app: AdminApplication, reply: ModelReply, draws: seq<real>): (m: map<string, Json>)
    requires |draws| == 5 && forall i :: 0 <= i < 5 ==> IsDraw(draws[i])
    ensures && ApplicationId in m && Reasoning in m
            && forall f :: f in ScoreFields ==> f in m && InRange(m[f])
    ensures !(reply.Replied? && Accepted(reply.parsed) && ApplicationId in reply.parsed.fields) ==>
              m[ApplicationId] == JStr(app.id)
    ensures reply.Replied? && Accepted(reply.parsed) ==>
              && m[Reasoning] == reply.parsed.fields[Reasoning]
              && forall f :: f in ScoreFields && InRange(reply.parsed.fields[f]) ==> m[f] == reply.parsed.fields[f]
    ensures !(reply.Replied? && Accepted(reply.parsed)) ==>
              && (forall f :: f in ScoreFields ==> m[f].JNum? && 60.0 <= m[f].n <= 99.0)
              && m[Reasoning] == JStr(if reply.NotConfigured? then NotConfiguredReasoning else UnavailableReasoning)
  {
    match reply
    case NotConfigured =>
      MockShape(app.id, draws, NotConfiguredReasoning);
      Mock(app.id, draws, NotConfiguredReasoning)
    case CallFailed =>
      MockShape(app.id, draws, UnavailableReasoning);
      Mock(app.id, draws, UnavailableReasoning)
    case Replied(p) =>
      if Accepted(p) then
        SpreadAsWrittenShape(app.id, p.fields);
        SpreadAsWritten(app.id, p.fields)
      else
        MockShape(app.id, draws, UnavailableReasoning);
        Mock(app.id, draws, UnavailableReasoning)
  }

  /** As written, a reply that names an `applicationId` of its own replaces
      the requested one in the result. */
  lemma AsWrittenTakesReplyId(app: AdminApplication, p: Json, draws: seq<real>)
    requires |draws| == 5 && forall i :: 0 <= i < 5 ==> IsDraw(draws[i])
    requires Accepted(p) && ApplicationId in p.fields
    ensures ScoreAsWritten(app, Replied(p), draws)[ApplicationId] == p.fields[ApplicationId]
  {
    assert ApplicationId !in ScoreFields;
  }

  /** So any accepted reply, once it names another id, loses the requested
      one. */
  lemma AsWrittenLosesRequestedId(app: AdminApplication, p: Json, other: string, draws: seq<real>)
    requires |draws| == 5 && forall i :: 0 <= i < 5 ==> IsDraw(draws[i])
    requires Accepted(p) && other != app.id
    ensures var q := JObj(p.fields[ApplicationId := JStr(other)]);
            Accepted(q) && ScoreAsWritten(app, Replied(q), draws)[ApplicationId] != JStr(app.id)
  {
    var q := JObj(p.fields[ApplicationId := JStr(other)]);
    AsWrittenTakesReplyId(app, q, draws);
  }

  /** The code as written and the corrected score differ in the id alone:
      the same properties, with the same values elsewhere. So the score
      written to the database is the same in both. */
  lemma AsWrittenDiffersOnlyInId(app: AdminApplication, reply: ModelReply, draws: seq<real>)
    requires |draws| == 5 && forall i :: 0 <= i < 5 ==> IsDraw(draws[i])
    ensures ScoreAsWritten(app, reply, draws).Keys == Score(app, reply, draws).Keys
    ensures forall k :: k in Score(app, reply, draws) && k != ApplicationId ==>
              ScoreAsWritten(app, reply, draws)[k] == Score(app, reply, draws)[k]
  {
  }

  /** `scoreCandidate` with the requested id kept, whatever the reply. */
  function Score(app: AdminApplication, reply: ModelReply, draws: seq<real>): (m: map<string, Json>)
    requires |draws| == 5 && forall i :: 0 <= i < 5 ==> IsDraw(draws[i])
    ensures ApplicationId in m && m[ApplicationId] == JStr(app.id)
  {
    match reply
    case NotConfigured => Mock(app.id, draws, NotConfiguredReasoning)
    case CallFailed => Mock(app.id, draws, UnavailableReasoning)
    case Replied(p) =>
      if Accepted(p) then Spread(app.id, p.fields) else Mock(app.id, draws, UnavailableReasoning)
  }

  /** Whatever the model replies, the result carries the requested id, the
      reasoning, and five scores in [0, 100]. An accepted reply keeps its
      in-range scores and its reasoning; otherwise every score is a mock
      score in [60, 99], with the reasoning telling which fallback ran. */
  lemma ScoreShape(app: AdminApplication, reply: ModelReply, draws: seq<real>)
    requires |draws| == 5 && forall i :: 0 <= i < 5 ==> IsDraw(draws[i])
    ensures var m := Score(app, reply, draws);
            && ApplicationId in m && m[ApplicationId] == JStr(app.id)
            && Reasoning in m
            && forall f :: f in ScoreFields ==> f in m && InRange(m[f])
    ensures var m := Score(app, reply, draws);
            reply.Replied? && Accepted(reply.parsed) ==>
              && m[Reasoning] == reply.parsed.fields[Reasoning]
              && forall f :: f in ScoreFields && InRange(reply.parsed.fields[f]) ==> m[f] == reply.parsed.fields[f]
    ensures var m := Score(app, reply, draws);
            !(reply.Replied? && Accepted(reply.parsed)) ==>
              && (forall f :: f in ScoreFields ==> 60.0 <= m[f].n <= 99.0)
              && m[Reasoning] == JStr(if reply.NotConfigured? then NotConfiguredReasoning else UnavailableReasoning)
  {
    match reply
    case NotConfigured => MockShape(app.id, draws, NotConfiguredReasoning);
    case CallFailed => MockShape(app.id, draws, UnavailableReasoning);
    case Replied(p) =>
      if Accepted(p) {
        SpreadShape(app.id, p.fields);
      } else {
        MockShape(app.id, draws, UnavailableReasoning);
      }
  }

  /** The placeholder carries the id, the reasoning and five scores in
      [60, 99]. */
  lemma MockShape(id: string, draws: seq<real>, reasoning: string)
    requires |draws| == 5 && forall i :: 0 <= i < 5 ==> IsDraw(draws[i])
    ensures var m := Mock(id, draws, reasoning);
            && ApplicationId in m && m[ApplicationId] == JStr(id)
            && Reasoning in m && m[Reasoning] == JStr(reasoning)
            && forall f :: f in ScoreFields ==> f in m && InRange(m[f]) && 60.0 <= m[f].n <= 99.0
  {
    var m := Mock(id, draws, reasoning);
    forall f | f in ScoreFields ensures f in m && InRange(m[f]) && 60.0 <= m[f].n <= 99.0 {
      var i :| 0 <= i < 5 && ScoreFields[i] == f;
    }
  }

  /** An accepted reply keeps the requested id, its reasoning and its
      in-range scores, and every score ends in range. */
  lemma SpreadShape(id: string, fields: map<string, Json>)
    requires (forall f :: f in RequiredFields ==> f in fields) && ScoresPrint(fields)
    ensures var m := Spread(id, fields);
            && ApplicationId in m && m[ApplicationId] == JStr(id)
            && Reasoning in m && m[Reasoning] == fields[Reasoning]
            && (forall f :: f in ScoreFields ==> f in m && InRange(m[f]))
            && forall f :: f in ScoreFields && InRange(fields[f]) ==> m[f] == fields[f]
  {
    assert ApplicationId !in ScoreFields && Reasoning != ApplicationId && Reasoning !in ScoreFields;
    assert Reasoning in RequiredFields;
    assert forall f :: f in ScoreFields ==> f in RequiredFields && f != ApplicationId;
  }

  /** The spread as written keeps the reply's reasoning and in-range scores,
      puts every score in range, and has the requested id only when the
      reply names none. */
  lemma SpreadAsWrittenShape(id: string, fields: map<string, Json>)
    requires (forall f :: f in RequiredFields ==> f in fields) && ScoresPrint(fields)
    ensures var m := SpreadAsWritten(id, fields);
            && ApplicationId in m && (ApplicationId !in fields ==> m[ApplicationId] == JStr(id))
            && Reasoning in m && m[Reasoning] == fields[Reasoning]
            && (forall f :: f in ScoreFields ==> f in m && InRange(m[f]))
            && forall f :: f in ScoreFields && InRange(fields[f]) ==> m[f] == fields[f]
  {
    assert Reasoning in RequiredFields && Reasoning !in ScoreFields;
    assert forall f :: f in ScoreFields ==> f in RequiredFields;
  }

  /** A complete reply whose overall score is an object with its own
      `toString` makes `parseInt` throw: the placeholder replaces the whole
      reply, its reasoning included, both as written and corrected. */
  lemma OwnToStringScoreFallsBack(app: AdminApplication, p: Json, draws: seq<real>)
    requires |draws| == 5 && forall i :: 0 <= i < 5 ==> IsDraw(draws[i])
    requires HasRequired(p)
    ensures var q := JObj(p.fields[OverallScore := JObj(map["toString" := JNum(1.0)])]);
            && HasRequired(q) && !Accepted(q)
            && ScoreAsWritten(app, Replied(q), draws)[Reasoning] == JStr(UnavailableReasoning)
            && Score(app, Replied(q), draws)[Reasoning] == JStr(UnavailableReasoning)
            && ScoreAsWritten(app, Replied(q), draws)[OverallScore] == JNum(MockScore(draws[0]) as real)
  {
    var q := JObj(p.fields[OverallScore := JObj(map["toString" := JNum(1.0)])]);
    assert OverallScore in ScoreFields && !Printable(q.fields[OverallScore]);
    ScoreShape(app, Replied(q), draws);
  }

  // ----- The HTTP handler -----

  /** The stored-score write (`update({ score }).eq('id', applicationId)`);
      its outcome does not affect the reply. */
  datatype Update = Update(id: Json, score: Json)

  datatype Response =
    | Preflight
    | Reply(status: nat, body: Json, update: Option<Update>)

  const IdRequired := "Application ID is required"
  const NotFound := "Application not found"
  const MethodNotAllowed := "Method not allowed"

  function ErrorBody(message: string): Json {
    JObj(map["error" := JStr(message)])
  }

  /** One request. `body` is None when `req.json()` throws; `found` is the
      lookup of the requested id (None on a database error or no row);
      `thrown` is the message of whatever the runtime throws. */
  function Handle(verb: string, body: Option<Json>, found: Option<AdminApplication>,
                  reply: ModelReply, draws: seq<real>, thrown: string): (r: Response)
    requires |draws| == 5 && forall i :: 0 <= i < 5 ==> IsDraw(draws[i])
    ensures r.Preflight? <==> verb == "OPTIONS"
    ensures r == Reply(405, ErrorBody(MethodNotAllowed), None) <==> verb != "OPTIONS" && verb != "POST"
    ensures r == Reply(500, ErrorBody(thrown), None) <==> verb == "POST" && (body.None? || body == Some(JNull))
    ensures r == Reply(400, ErrorBody(IdRequired), None) <==>
              verb == "POST" && body.Some? && body.value != JNull && !TruthyField(body.value, ApplicationId)
    ensures r == Reply(404, ErrorBody(NotFound), None) <==>
              verb == "POST" && body.Some? && TruthyField(body.value, ApplicationId) && found.None?
    ensures r.Reply? && r.status == 200 <==>
              verb == "POST" && body.Some? && TruthyField(body.value, ApplicationId) && found.Some?
    ensures r.Reply? && r.status == 200 ==>
              && r.body == JObj(ScoreAsWritten(found.value, reply, draws))
              && r.update == Some(Update(Field(body.value, ApplicationId).value, Score(found.value, reply, draws)[OverallScore]))
              && InRange(r.update.value.score)
  {
    if verb == "OPTIONS" then Preflight
    else if verb != "POST" then Reply(405, ErrorBody(MethodNotAllowed), None)
    else if body.None? || body.value == JNull then Reply(500, ErrorBody(thrown), None)
    else if !TruthyField(body.value, ApplicationId) then Reply(400, ErrorBody(IdRequired), None)
    else if found.None? then Reply(404, ErrorBody(NotFound), None)
    else
      var score := ScoreAsWritten(found.value, reply, draws);
      ScoreShape(found.value, reply, draws);
      AsWrittenDiffersOnlyInId(found.value, reply, draws);
      assert OverallScore in ScoreFields;
      Reply(200, JObj(score), Some(Update(Field(body.value, ApplicationId).value, score[OverallScore])))
  }
}
