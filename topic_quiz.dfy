/**
 * The `TopicQuiz` component: it restores a stored quiz or generates one from the
 * language model's reply, records one answer per question, scores the sheet on
 * submit and clears it on retry.
 */
module TopicQuizComponent {
  import opened Wrappers
  import opened Grading
  import opened JsBuiltins
  import opened JsonFences

  /** `storedQuizData`: absent (or falsy), an array of questions, or some other
      truthy value. */
  datatype StoredQuiz = NoStoredQuiz | StoredArray(items: seq<Question>) | StoredOther

  /** The shape choice in `initQuiz`: an array is the quiz, otherwise a truthy
      `questions` field is; anything else, and a reply that does not parse (or
      parses to `null`, whose `.questions` throws), gives the empty quiz. */
  function QuizFromParse(parsed: ParseResult): (r: seq<Question>)
    ensures r != [] ==> parsed == Parsed(JArray(r)) || parsed == Parsed(JObject(Some(r)))
    ensures parsed.ParseFailed? ==> r == []
  {
    match parsed
    case ParseFailed(_) => []
    case Parsed(JArray(items)) => items
    case Parsed(JObject(Some(field))) => field
    case Parsed(_) => []
  }

  /** A reply that wraps a JSON array of questions in a "```json" fence, with any
      white space around, becomes exactly that quiz. */
  lemma FencedArrayBecomesQuiz(parse: string -> ParseResult, lead: string, gap1: string, body: string,
                               gap2: string, trail: string, quiz: seq<Question>)
    requires AllWhitespace(lead) && AllWhitespace(gap1) && AllWhitespace(gap2) && AllWhitespace(trail)
    requires body == [] || (!IsWhitespace(body[0]) && !IsWhitespace(body[|body| - 1]))
    requires parse(body) == Parsed(JArray(quiz))
    ensures QuizFromParse(parse(CleanJson(lead + OpeningFence + gap1 + body + gap2 + ClosingFence + trail))) == quiz
  {
    CleanJsonFencedRoundTrip(lead, gap1, body, gap2, trail);
  }

  /** A reply that wraps a JSON object with a `questions` array in a "```json"
      fence becomes that array. */
  lemma FencedObjectBecomesQuiz(parse: string -> ParseResult, lead: string, gap1: string, body: string,
                                gap2: string, trail: string, quiz: seq<Question>)
    requires AllWhitespace(lead) && AllWhitespace(gap1) && AllWhitespace(gap2) && AllWhitespace(trail)
    requires body == [] || (!IsWhitespace(body[0]) && !IsWhitespace(body[|body| - 1]))
    requires parse(body) == Parsed(JObject(Some(quiz)))
    ensures QuizFromParse(parse(CleanJson(lead + OpeningFence + gap1 + body + gap2 + ClosingFence + trail))) == quiz
  {
    CleanJsonFencedRoundTrip(lead, gap1, body, gap2, trail);
  }

  /** A stored quiz comes with a non-empty stored answer sheet, so its results are
      restored. */
  predicate RestoresResults(storedQuiz: StoredQuiz, storedAnswers: Option<Answers>) {
    storedQuiz.StoredArray? && storedAnswers.Some? && |storedAnswers.value| > 0
  }

  /** What `handleSubmitQuiz` hands to `onQuizSubmit`. */
  datatype SubmitReport = SubmitReport(answers: Answers, score: nat, total: nat)

  /** The component's state variables. */
  datatype QuizState = QuizState(questions: seq<Question>, loading: bool, selectedAnswers: Answers,
                                 showResults: bool, score: int)

  /** The first branch of `initQuiz`: the stored array becomes the quiz, and a
      non-empty stored answer sheet, with the stored score when both the score and
      the total are numbers, is put back with the results shown. */
  function Restored(st: QuizState, items: seq<Question>, storedAnswers: Option<Answers>,
                    storedScore: Option<int>, storedTotal: Option<int>): (r: QuizState)
    ensures r.questions == items && !r.loading
    ensures storedAnswers.Some? && |storedAnswers.value| > 0 ==>
      r.selectedAnswers == storedAnswers.value && r.showResults &&
      r.score == (if storedScore.Some? && storedTotal.Some? then storedScore.value else st.score)
    ensures !(storedAnswers.Some? && |storedAnswers.value| > 0) ==>
      r.selectedAnswers == st.selectedAnswers && r.showResults == st.showResults && r.score == st.score
  {
    var restored :=
      if storedAnswers.Some? && |storedAnswers.value| > 0 then
        st.(selectedAnswers := storedAnswers.value, showResults := true,
            score := if storedScore.Some? && storedTotal.Some? then storedScore.value else st.score)
      else st;
    restored.(questions := items, loading := false)
  }

  /** The second branch of `initQuiz`: a reply that arrives is cleaned, parsed and
      its questions chosen; they become the quiz and are returned for
      `onQuizGenerated`. A failed request leaves the quiz as it was. Either way
      loading ends and the answer sheet is untouched. */
  function Generated(st: QuizState, response: Outcome<string>, parse: string -> ParseResult)
    : (r: (Option<seq<Question>>, QuizState))
    ensures !r.1.loading
    ensures response.Ok? ==>
      r.1.questions == QuizFromParse(parse(CleanJson(response.value))) && r.0 == Some(r.1.questions)
    ensures response.Threw? ==> r.1.questions == st.questions && r.0 == None
    ensures r.1.selectedAnswers == st.selectedAnswers && r.1.showResults == st.showResults && r.1.score == st.score
  {
    match response
    case Threw(_) => (None, st.(loading := false))
    case Ok(reply) =>
      var quiz := QuizFromParse(parse(CleanJson(reply)));
      (Some(quiz), st.(questions := quiz, loading := false))
  }

  /** `initQuiz`: a stored array is restored and nothing is generated; otherwise
      the quiz is generated from the reply. */
  function Initialised(st: QuizState, storedQuiz: StoredQuiz, storedAnswers: Option<Answers>,
                       storedScore: Option<int>, storedTotal: Option<int>, response: Outcome<string>,
                       parse: string -> ParseResult): (r: (Option<seq<Question>>, QuizState))
    ensures !r.1.loading
    ensures storedQuiz.StoredArray? ==> r.1.questions == storedQuiz.items && r.0 == None
    ensures RestoresResults(storedQuiz, storedAnswers) ==>
      r.1.selectedAnswers == storedAnswers.value && r.1.showResults &&
      r.1.score == (if storedScore.Some? && storedTotal.Some? then storedScore.value else st.score)
    ensures !RestoresResults(storedQuiz, storedAnswers) ==>
      r.1.selectedAnswers == st.selectedAnswers && r.1.showResults == st.showResults && r.1.score == st.score
    ensures !storedQuiz.StoredArray? && response.Ok? ==>
      r.1.questions == QuizFromParse(parse(CleanJson(response.value))) && r.0 == Some(r.1.questions)
    ensures !storedQuiz.StoredArray? && response.Threw? ==> r.1.questions == st.questions && r.0 == None
  {
    if storedQuiz.StoredArray? then (None, Restored(st, storedQuiz.items, storedAnswers, storedScore, storedTotal))
    else Generated(st, response, parse)
  }

  class TopicQuiz {
    var questions: seq<Question>
    var loading: bool
    var selectedAnswers: Answers
    var showResults: bool
    var score: int

    function Snapshot(): QuizState
      reads this
    {
      QuizState(questions, loading, selectedAnswers, showResults, score)
    }

    /** The initial `useState` values. */
    constructor ()
      ensures Snapshot() == QuizState([], true, map[], false, 0)
    {
      questions := [];
      loading := true;
      selectedAnswers := map[];
      showResults := false;
      score := 0;
    }

    /** `initQuiz`. The stored props come in as parameters; `response` is what
        `fetchAIResponse(notesContent)` resolves to or throws, and `parse` stands for
        `JSON.parse`. The result is the list passed to `onQuizGenerated`, if any. */
    method InitQuiz(storedQuiz: StoredQuiz, storedAnswers: Option<Answers>, storedScore: Option<int>,
                    storedTotal: Option<int>, response: Outcome<string>, parse: string -> ParseResult)
      returns (generated: Option<seq<Question>>)
      modifies this
      ensures (generated, Snapshot()) ==
        Initialised(old(Snapshot()), storedQuiz, storedAnswers, storedScore, storedTotal, response, parse)
    {
      if storedQuiz.StoredArray? {
        RestoreQuiz(storedQuiz.items, storedAnswers, storedScore, storedTotal);
        generated := None;
      } else {
        generated := GenerateQuiz(response, parse);
      }
    }

    method RestoreQuiz(items: seq<Question>, storedAnswers: Option<Answers>, storedScore: Option<int>,
                       storedTotal: Option<int>)
      modifies this
      ensures Snapshot() == Restored(old(Snapshot()), items, storedAnswers, storedScore, storedTotal)
    {
      questions := items;
      if storedAnswers.Some? && |storedAnswers.value| > 0 {
        selectedAnswers := storedAnswers.value;
        showResults := true;
        if storedScore.Some? && storedTotal.Some? {
          score := storedScore.value;
        }
      }
      loading := false;
    }

    method GenerateQuiz(response: Outcome<string>, parse: string -> ParseResult)
      returns (generated: Option<seq<Question>>)
      modifies this`questions, this`loading
      ensures (generated, Snapshot()) == Generated(old(Snapshot()), response, parse)
    {
      generated := None;
      if response.Ok? {
        var cleanResponse := CleanJson(response.value);
        var quiz := QuizFromParse(parse(cleanResponse));
        questions := quiz;
        generated := Some(quiz);
      }
      loading := false;
    }

    /** `handleAnswerSelect`: the answer to question `questionIndex` is replaced and
        every other entry stays as it was. */
    method HandleAnswerSelect(questionIndex: int, answer: string)
      modifies this
      ensures selectedAnswers == old(selectedAnswers)[questionIndex := answer]
      ensures forall j :: j != questionIndex ==>
        (j in selectedAnswers <==> j in old(selectedAnswers)) &&
        (j in selectedAnswers ==> selectedAnswers[j] == old(selectedAnswers)[j])
      ensures questions == old(questions) && loading == old(loading)
      ensures showResults == old(showResults) && score == old(score)
    {
      selectedAnswers := selectedAnswers[questionIndex := answer];
    }

    /** `handleSubmitQuiz`: the score is the number of questions answered with their
        own answer; the result pane opens and the sheet, that score and the number
        of questions are reported. */
    method HandleSubmitQuiz() returns (report: SubmitReport)
      modifies this
      ensures score == Score(questions, selectedAnswers) && 0 <= score <= |questions|
      ensures showResults
      ensures report == SubmitReport(selectedAnswers, score, |questions|)
      ensures questions == old(questions) && selectedAnswers == old(selectedAnswers) && loading == old(loading)
    {
      var correctAnswers := CountCorrect(questions, selectedAnswers);
      score := correctAnswers;
      showResults := true;
      report := SubmitReport(selectedAnswers, correctAnswers, |questions|);
    }

    /** `handleRetryQuiz`: the sheet is emptied, the results hidden and the score
        set back to 0, which is the score of the empty sheet. */
    method HandleRetryQuiz()
      modifies this
      ensures selectedAnswers == map[] && !showResults && score == 0
      ensures score == Score(questions, selectedAnswers)
      ensures questions == old(questions) && loading == old(loading)
    {
      selectedAnswers := map[];
      showResults := false;
      score := 0;
      NoAnswersScoreZero(questions);
    }
  }
}
