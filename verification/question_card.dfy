/** The question card (src/components/QuestionCard.tsx): which input it
    renders for a question, when it refuses a submission, when its button
    is disabled, and how its local value evolves. */
module QuestionCard {
  import opened Wrappers
  import opened Types

  /** The input `renderInput` produces; a dropdown lists its choices, the
      first being the empty "Select an option..." entry. */
  datatype Input = TextareaInput | Dropdown(choices: seq<string>) | NumberInput | TextInput

  /** `renderInput`: dispatch on the question type; `text` is the `default`
      branch. Absent options give a dropdown with only the empty choice. */
  function InputFor(q: Question): (i: Input)
    ensures i.TextareaInput? <==> q.qtype == Textarea
    ensures i.NumberInput? <==> q.qtype == Number
    ensures i.TextInput? <==> q.qtype == Text
    ensures i.Dropdown? <==> q.qtype == Select
    ensures i.Dropdown? ==> |i.choices| >= 1 && i.choices[0] == ""
                            && i.choices[1..] == (if q.options.Some? then q.options.value else [])
  {
    match q.qtype
    case Textarea => TextareaInput
    case Select => Dropdown([""] + q.options.GetOr([]))
    case Number => NumberInput
    case Text => TextInput
  }

  /** `!value && question.required`: the card holds back an empty answer to
      a required question. */
  predicate Blocked(q: Question, v: Value) {
    IsFalsy(v) && IsRequired(q)
  }

  /** `handleSubmit`: nothing when blocked, else exactly `{key, value}`. */
  function HandleSubmit(q: Question, v: Value): (emitted: Option<Answer>)
    ensures emitted.None? <==> (v == Str("") || v == Num(0)) && q.required == Some(true)
    ensures emitted.Some? ==> emitted.value.key == q.key && emitted.value.value == v
  {
    if Blocked(q, v) then None else Some(Answer(q.key, v))
  }

  /** The submit button's `disabled` attribute. */
  function ButtonDisabled(loading: bool, q: Question, v: Value): (d: bool)
    ensures loading ==> d
    ensures !loading ==> (d <==> HandleSubmit(q, v).None?)
  {
    loading || Blocked(q, v)
  }

  /** A question that is not required accepts every value, including the
      empty string and zero. */
  lemma OptionalAcceptsAnything(q: Question, v: Value)
    requires !IsRequired(q)
    ensures HandleSubmit(q, v) == Some(Answer(q.key, v))
  {
  }

  /** The card's own state: the question shown and the value typed so far. */
  datatype Card = Card(question: Question, value: Value)

  datatype Event = Typed(v: Value) | Submitted | Shown(q: Question)

  /** One event: typing sets the value; a submission that is not blocked
      emits the answer and clears the value; showing a question with a
      different key resets the value to empty (the `question.key` effect). */
  function Step(c: Card, e: Event): (r: (Card, Option<Answer>))
    ensures e.Submitted? ==> r.1 == HandleSubmit(c.question, c.value)
    ensures e.Submitted? && r.1.Some? ==> r.0.value == Str("")
    ensures e.Submitted? && r.1.None? ==> r.0 == c
    ensures !e.Submitted? ==> r.1.None?
    ensures e.Shown? && e.q.key != c.question.key ==> r.0 == Card(e.q, Str(""))
    ensures e.Shown? && e.q.key == c.question.key ==> r.0 == Card(e.q, c.value)
    ensures e.Typed? ==> r.0 == c.(value := e.v)
  {
    match e
    case Typed(v) => (c.(value := v), None)
    case Submitted =>
      var out := HandleSubmit(c.question, c.value);
      if out.Some? then (c.(value := Str("")), out) else (c, None)
    case Shown(q) => (Card(q, if q.key != c.question.key then Str("") else c.value), None)
  }

  /** Feeding a list of events; the answers emitted, in order. */
  function Feed(c: Card, es: seq<Event>): (r: (Card, seq<Answer>))
    ensures |r.1| <= |es|
    decreases |es|
  {
    if |es| == 0 then (c, [])
    else
      var (c1, out) := Step(c, es[0]);
      var (c2, rest) := Feed(c1, es[1..]);
      (c2, (if out.Some? then [out.value] else []) + rest)
  }

  /** Every emitted answer is keyed by a question the card showed: the
      first one or one shown later. */
  lemma {:induction false} EmittedAnswersKeyed(c: Card, es: seq<Event>, i: nat)
    requires i < |Feed(c, es).1|
    ensures var a := Feed(c, es).1[i];
            a.key == c.question.key || exists j :: 0 <= j < |es| && es[j].Shown? && es[j].q.key == a.key
    decreases |es|
  {
    var (c1, out) := Step(c, es[0]);
    var (c2, rest) := Feed(c1, es[1..]);
    var first := if out.Some? then [out.value] else [];
    assert Feed(c, es).1 == first + rest;
    if i < |first| {
      assert Feed(c, es).1[i] == out.value;
    } else {
      assert Feed(c, es).1[i] == rest[i - |first|];
      EmittedAnswersKeyed(c1, es[1..], i - |first|);
      var a := rest[i - |first|];
      if a.key != c1.question.key {
        var j :| 0 <= j < |es[1..]| && es[1..][j].Shown? && es[1..][j].q.key == a.key;
        assert es[j + 1] == es[1..][j];
      } else if es[0].Shown? {
        assert es[0].q.key == a.key;
      }
    }
  }
}
