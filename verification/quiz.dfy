/**
 * The quiz session of one category screen (`Categoria1`): which question is
 * on screen, how many answers were right, which option the learner picked
 * for the current question and whether the final screen is showing.
 *
 * The screen's reactive variables become one immutable `Session` and its two
 * event handlers become pure transitions: `Select` is the tap on an option
 * button, `Advance` is the body of the effect that runs one second after a
 * selection is recorded. Background colours and animations are not modelled.
 */
module Quiz {
  import opened Wrappers

  /** One question: its text, the image shown with it, the options and the index of the right one. */
  datatype Question = Question(text: string, image: string, options: seq<string>, correct: int)

  /**
   * `index` is `indiceActual`, `score` is `aciertos`, `selected` is
   * `respuestaSeleccionada` and `finished` is `mostrarFinal`.
   */
  datatype Session = Session(index: nat, score: nat, selected: Option<int>, finished: bool)

  /** The three phases the session passes through; derived from the variables, not stored. */
  datatype Phase = Answering | Revealing | Finished

  function PhaseOf(s: Session): Phase {
    if s.finished then Finished else if s.selected.Some? then Revealing else Answering
  }

  /** The state the screen is composed with. */
  const Start: Session := Session(0, 0, None, false)

  /** `preguntas.getOrNull(indiceActual)`: the question on screen, if any. */
  function Current(qs: seq<Question>, s: Session): (q: Option<Question>)
    ensures q.Some? <==> s.index < |qs|
    ensures q.Some? ==> q.value == qs[s.index]
  {
    if s.index < |qs| then Some(qs[s.index]) else None
  }

  /** An option button for `i` is on screen and enabled. */
  predicate CanSelect(qs: seq<Question>, s: Session, i: int) {
    && PhaseOf(s) == Answering
    && s.index < |qs|
    && 0 <= i < |qs[s.index].options|
  }

  /**
   * Tap on option `i`. The buttons exist only while the final screen is not
   * shown and only for the options of the current question, and they act
   * only while nothing is selected; then the choice is recorded and scored.
   */
  function Select(qs: seq<Question>, s: Session, i: int): (r: Session)
    ensures CanSelect(qs, s, i) ==>
              && r.selected == Some(i)
              && r.index == s.index
              && !r.finished
              && (i == qs[s.index].correct ==> r.score == s.score + 1)
              && (i != qs[s.index].correct ==> r.score == s.score)
    ensures !CanSelect(qs, s, i) ==> r == s
  {
    if CanSelect(qs, s, i) then
      var point := if i == qs[s.index].correct then 1 else 0;
      s.(score := s.score + point, selected := Some(i))
    else
      s
  }

  /**
   * The delayed effect keyed on the selection: it runs only once a selection
   * is recorded; on the last question it shows the final screen, otherwise
   * it moves to the next question and clears the selection.
   */
  function Advance(qs: seq<Question>, s: Session): (r: Session)
    ensures PhaseOf(s) == Revealing && s.index == |qs| - 1 ==>
              r == s.(finished := true)
    ensures PhaseOf(s) == Revealing && s.index != |qs| - 1 ==>
              r == s.(index := s.index + 1, selected := None)
    ensures PhaseOf(s) != Revealing ==> r == s
  {
    if s.selected.None? || s.finished then s
    else if s.index == |qs| - 1 then s.(finished := true)
    else s.(index := s.index + 1, selected := None)
  }

  /**
   * What every reachable session satisfies: the index stays on a question,
   * at most one point per question seen so far, a recorded selection is an
   * option of the current question, and the final screen only follows an
   * answer to the last question.
   */
  predicate Valid(qs: seq<Question>, s: Session) {
    && (|qs| == 0 ==> s.index == 0)
    && (|qs| > 0 ==> s.index < |qs|)
    && s.score <= s.index + (if s.selected.Some? then 1 else 0)
    && (s.selected.Some? ==> s.index < |qs| && 0 <= s.selected.value < |qs[s.index].options|)
    && (s.finished ==> s.selected.Some? && s.index == |qs| - 1)
  }

  lemma StartIsValid(qs: seq<Question>)
    ensures Valid(qs, Start)
    ensures PhaseOf(Start) == Answering && Start.score == 0 && Start.index == 0
  {
  }

  lemma SelectPreservesValid(qs: seq<Question>, s: Session, i: int)
    requires Valid(qs, s)
    ensures Valid(qs, Select(qs, s, i))
  {
  }

  lemma AdvancePreservesValid(qs: seq<Question>, s: Session)
    requires Valid(qs, s)
    ensures Valid(qs, Advance(qs, s))
  {
  }

  /** The score never exceeds the number of questions. */
  lemma ScoreBounded(qs: seq<Question>, s: Session)
    requires Valid(qs, s)
    ensures s.score <= |qs|
    ensures s.score <= s.index + 1
  {
  }

  /** A second tap on the same question changes nothing: each question is scored at most once. */
  lemma SelectAtMostOnce(qs: seq<Question>, s: Session, i: int, j: int)
    ensures s.selected.Some? ==> Select(qs, s, j) == s
    ensures CanSelect(qs, s, i) ==> Select(qs, Select(qs, s, i), j) == Select(qs, s, i)
    ensures Select(qs, Select(qs, s, i), j).score <= s.score + 1
  {
  }

  /** Once the final screen shows, neither event changes the session. */
  lemma FinishedIsFrozen(qs: seq<Question>, s: Session, i: int)
    requires s.finished
    ensures Select(qs, s, i) == s
    ensures Advance(qs, s) == s
  {
  }

  /** Without a question on screen there is nothing to answer and nothing to advance. */
  lemma EmptyQuestionListIsInert(qs: seq<Question>, s: Session, i: int)
    requires |qs| == 0 && Valid(qs, s)
    ensures Current(qs, s) == None
    ensures Select(qs, s, i) == s
    ensures Advance(qs, s) == s
  {
  }

  /** Inputs the screen delivers: a tap on an option, or the end of the reveal delay. */
  datatype Event = Choose(option: int) | Reveal

  function Step(qs: seq<Question>, s: Session, e: Event): Session {
    match e
    case Choose(i) => Select(qs, s, i)
    case Reveal => Advance(qs, s)
  }

  /** The session after a sequence of events. */
  function Run(qs: seq<Question>, s: Session, es: seq<Event>): Session
    decreases |es|
  {
    if |es| == 0 then s else Run(qs, Step(qs, s, es[0]), es[1..])
  }

  /**
   * Along any sequence of events the session stays valid, the score never
   * decreases and never exceeds the number of questions, and the index
   * never goes back.
   */
  lemma {:induction false} RunKeepsInvariant(qs: seq<Question>, s: Session, es: seq<Event>)
    requires Valid(qs, s)
    ensures Valid(qs, Run(qs, s, es))
    ensures s.score <= Run(qs, s, es).score <= |qs|
    ensures s.index <= Run(qs, s, es).index
    ensures s.finished ==> Run(qs, s, es) == s
    decreases |es|
  {
    if |es| == 0 {
      ScoreBounded(qs, s);
    } else {
      match es[0] {
        case Choose(i) => SelectPreservesValid(qs, s, i);
        case Reveal => AdvancePreservesValid(qs, s);
      }
      RunKeepsInvariant(qs, Step(qs, s, es[0]), es[1..]);
    }
  }

  /** How many of `answers` match the right option of the question in the same position. */
  function CountCorrect(qs: seq<Question>, answers: seq<int>): nat
    requires |answers| <= |qs|
  {
    if |answers| == 0 then 0
    else (if answers[0] == qs[0].correct then 1 else 0) + CountCorrect(qs[1..], answers[1..])
  }

  /** One full round per answer: the tap, then the reveal. */
  function Play(qs: seq<Question>, s: Session, answers: seq<int>): Session
    decreases |answers|
  {
    if |answers| == 0 then s else Play(qs, Advance(qs, Select(qs, s, answers[0])), answers[1..])
  }

  /** `answers` picks an existing option of each question from `from` on. */
  predicate AnswersFit(qs: seq<Question>, from: nat, answers: seq<int>) {
    && from + |answers| == |qs|
    && forall k :: 0 <= k < |answers| ==> 0 <= answers[k] < |qs[from + k].options|
  }

  /**
   * Answering every remaining question ends on the final screen at the last
   * question, with exactly one point per right answer added to the score.
   */
  lemma {:induction false} PlayToEnd(qs: seq<Question>, s: Session, answers: seq<int>)
    requires Valid(qs, s) && PhaseOf(s) == Answering
    requires |answers| > 0 && AnswersFit(qs, s.index, answers)
    ensures Valid(qs, Play(qs, s, answers))
    ensures Play(qs, s, answers).finished
    ensures Play(qs, s, answers).index == |qs| - 1
    ensures Play(qs, s, answers).score == s.score + CountCorrect(qs[s.index..], answers)
    decreases |answers|
  {
    var t := Select(qs, s, answers[0]);
    var u := Advance(qs, t);
    assert CanSelect(qs, s, answers[0]);
    SelectPreservesValid(qs, s, answers[0]);
    AdvancePreservesValid(qs, t);
    if |answers| > 1 {
      assert u.index == s.index + 1;
      assert AnswersFit(qs, u.index, answers[1..]) by {
        forall k | 0 <= k < |answers[1..]|
          ensures 0 <= answers[1..][k] < |qs[u.index + k].options|
        {
          assert answers[1..][k] == answers[k + 1];
        }
      }
      PlayToEnd(qs, u, answers[1..]);
      assert qs[s.index..][1..] == qs[u.index..];
    }
  }

  /** The right option of every question, in order. */
  function AnswerKey(qs: seq<Question>): (key: seq<int>)
    ensures |key| == |qs|
    ensures forall k :: 0 <= k < |qs| ==> key[k] == qs[k].correct
  {
    seq(|qs|, k requires 0 <= k < |qs| => qs[k].correct)
  }

  lemma {:induction false} AnswerKeyScoresAll(qs: seq<Question>)
    ensures CountCorrect(qs, AnswerKey(qs)) == |qs|
    decreases |qs|
  {
    if |qs| > 0 {
      assert AnswerKey(qs)[1..] == AnswerKey(qs[1..]);
      AnswerKeyScoresAll(qs[1..]);
    }
  }

  /** Picking the right option every time ends on the final screen with one point per question. */
  lemma PerfectPlay(qs: seq<Question>)
    requires |qs| > 0
    requires forall k :: 0 <= k < |qs| ==> 0 <= qs[k].correct < |qs[k].options|
    ensures Valid(qs, Play(qs, Start, AnswerKey(qs)))
    ensures Play(qs, Start, AnswerKey(qs)).finished
    ensures Play(qs, Start, AnswerKey(qs)).score == |qs|
  {
    StartIsValid(qs);
    PlayToEnd(qs, Start, AnswerKey(qs));
    assert qs[0..] == qs;
    AnswerKeyScoresAll(qs);
  }

  /** The feedback bucket of the final screen. */
  datatype Tier = KeepPracticing | Improving | WellDone

  function TierOf(score: int): (t: Tier)
    ensures t == KeepPracticing <==> score < 3
    ensures t == Improving <==> 3 <= score <= 7
    ensures t == WellDone <==> score > 7
  {
    if score < 3 then KeepPracticing
    else if 3 <= score <= 7 then Improving
    else WellDone
  }

  function Rank(t: Tier): nat {
    match t
    case KeepPracticing => 0
    case Improving => 1
    case WellDone => 2
  }

  /** A higher score never earns a lower tier. */
  lemma TierMonotone(a: int, b: int)
    requires a <= b
    ensures Rank(TierOf(a)) <= Rank(TierOf(b))
  {
  }

  /** The message the final screen shows for each tier. */
  function FeedbackText(t: Tier): string {
    match t
    case KeepPracticing => "Debes seguir practicando"
    case Improving => "¡Vas mejorando, sigue así!"
    case WellDone => "¡Lo hiciste genial, felicidades!"
  }

  /** Different tiers never share a message. */
  lemma FeedbackTextsDistinct(t: Tier, u: Tier)
    ensures t != u ==> FeedbackText(t) != FeedbackText(u)
  {
  }

  /** What the final screen reports: right answers, number of questions, tier and its message. */
  datatype Summary = Summary(correct: nat, total: nat, tier: Tier, message: string)

  /** The final screen's figures; nothing while the questions are still showing. */
  function SummaryOf(qs: seq<Question>, s: Session): (r: Option<Summary>)
    requires Valid(qs, s)
    ensures r.Some? <==> s.finished
    ensures r.Some? ==> r.value.correct == s.score && r.value.total == |qs|
    ensures r.Some? ==> r.value.correct <= r.value.total
    ensures r.Some? ==> r.value.tier == TierOf(s.score)
    ensures r.Some? ==> r.value.message == FeedbackText(r.value.tier)
  {
    if s.finished then
      var tier := TierOf(s.score);
      Some(Summary(s.score, |qs|, tier, FeedbackText(tier)))
    else None
  }
}
