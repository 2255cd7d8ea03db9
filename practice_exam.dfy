/**
 * The `PracticeExam` component: a countdown from the allowed minutes, one answer
 * per question (a chosen option or typed text), scoring on submit and a full reset
 * on retry, plus the `m:ss` display of the remaining time.
 */
module PracticeExamComponent {
  import opened JsBuiltins
  import opened Grading

  /** `str.slice(-2)`: the last two characters, or the whole of a shorter string. */
  function LastTwo(s: string): (r: string)
    ensures |s| >= 2 ==> |r| == 2 && r == s[|s| - 2..]
    ensures |s| < 2 ==> r == s
  {
    if |s| <= 2 then s else s[|s| - 2..]
  }

  /** `Math.floor(timer / 60) + ":" + ("0" + (timer % 60)).slice(-2)`, with
      JavaScript's truncating `%`. */
  function TimeDisplay(timer: int): (r: string)
    ensures |r| >= 4 && r[|r| - 3] == ':'
  {
    IntToString(timer / 60) + ":" + LastTwo("0" + IntToString(JsRem(timer, 60)))
  }

  /** The two decimal digits of a number below 100, a leading zero included. */
  function TwoDigits(n: nat): (r: string)
    requires n < 100
    ensures |r| == 2 && IsDigits(r)
  {
    [DigitChar(n / 10), DigitChar(n % 10)]
  }

  lemma TwoDigitsValue(n: nat)
    requires n < 100
    ensures ParseNat(TwoDigits(n)) == n
  {
    var r := TwoDigits(n);
    var high := [r[0]];
    assert r[..1] == high;
    assert high[..0] == [];
    assert ParseNat(high) == DigitValue(r[0]) == n / 10;
  }

  lemma SingleDigitString(s: nat)
    requires s < 10
    ensures IntToString(s) == [DigitChar(s)]
  {
  }

  lemma TwoDigitsOfSingle(s: nat)
    requires s < 10
    ensures TwoDigits(s) == ['0', DigitChar(s)]
  {
  }

  lemma PadSingleDigit(s: nat)
    requires s < 10
    ensures LastTwo("0" + IntToString(s)) == TwoDigits(s)
  {
    SingleDigitString(s);
    TwoDigitsOfSingle(s);
    var p := "0" + [DigitChar(s)];
    assert p == ['0', DigitChar(s)];
  }

  lemma PadDoubleDigit(s: nat)
    requires 10 <= s < 100
    ensures LastTwo("0" + IntToString(s)) == TwoDigits(s)
  {
    var d := IntToString(s);
    assert d == NatToString(s / 10) + [DigitChar(s % 10)];
    var padded := "0" + d;
    assert |padded| == 3;
    assert padded[1..] == d;
  }

  /** The seconds of a non-negative timer always show as exactly two digits. */
  lemma SecondsShowTwoDigits(s: nat)
    requires s < 60
    ensures LastTwo("0" + IntToString(s)) == TwoDigits(s)
  {
    if s < 10 {
      PadSingleDigit(s);
    } else {
      PadDoubleDigit(s);
    }
  }

  /** For a non-negative timer the display is the whole minutes, a colon and the
      remaining seconds as two digits. */
  lemma TimeDisplayParts(timer: nat)
    ensures TimeDisplay(timer) == NatToString(timer / 60) + ":" + TwoDigits(timer % 60)
  {
    SecondsShowTwoDigits(timer % 60);
  }

  /** Reading the display back, minutes times 60 plus seconds, gives the timer. */
  lemma TimeDisplayRoundTrip(timer: nat)
    ensures var parts := Split(TimeDisplay(timer), ':');
      |parts| == 2 && IsDigits(parts[0]) && IsDigits(parts[1]) &&
      ParseNat(parts[0]) * 60 + ParseNat(parts[1]) == timer
  {
    var minutes := NatToString(timer / 60);
    var seconds := TwoDigits(timer % 60);
    TimeDisplayParts(timer);
    assert TimeDisplay(timer) == minutes + [':'] + seconds;
    DigitsHaveNoColon(minutes);
    DigitsHaveNoColon(seconds);
    SplitAtFirst(minutes, ':', seconds);
    SplitNoSeparator(seconds, ':');
    ParseNatToString(timer / 60);
    TwoDigitsValue(timer % 60);
  }

  class PracticeExam {
    const questions: seq<Question>
    /** In minutes. */
    const timeAllowed: int
    var timer: int
    var selectedAnswers: Answers
    var submitted: bool
    var score: nat

    /** With a non-negative allowance the timer stays between 0 and its start. */
    predicate Valid()
      reads this
    {
      timeAllowed >= 0 ==> 0 <= timer <= timeAllowed * 60
    }

    /** The initial `useState` values: the timer starts at the allowance in
        seconds. */
    constructor (examQuestions: seq<Question>, minutes: int)
      ensures questions == examQuestions && timeAllowed == minutes
      ensures timer == minutes * 60 && selectedAnswers == map[] && !submitted && score == 0
      ensures Valid()
    {
      questions := examQuestions;
      timeAllowed := minutes;
      timer := minutes * 60;
      selectedAnswers := map[];
      submitted := false;
      score := 0;
    }

    /** One second of the interval: the effect only schedules it while the exam is
        not submitted and time remains, and then it takes exactly one second off. */
    method Tick()
      requires Valid()
      modifies this
      ensures Valid()
      ensures old(!submitted && timer > 0) ==> timer == old(timer) - 1
      ensures old(submitted || timer <= 0) ==> timer == old(timer)
      ensures selectedAnswers == old(selectedAnswers) && submitted == old(submitted) && score == old(score)
    {
      if !(submitted || timer <= 0) {
        timer := timer - 1;
      }
    }

    /** `handleAnswerSelect`, for an option and for typed text alike: only the
        entry of question `index` changes. */
    method HandleAnswerSelect(index: int, answer: string)
      requires Valid()
      modifies this
      ensures Valid()
      ensures selectedAnswers == old(selectedAnswers)[index := answer]
      ensures forall j :: j != index ==>
        (j in selectedAnswers <==> j in old(selectedAnswers)) &&
        (j in selectedAnswers ==> selectedAnswers[j] == old(selectedAnswers)[j])
      ensures timer == old(timer) && submitted == old(submitted) && score == old(score)
    {
      selectedAnswers := selectedAnswers[index := answer];
    }

    /** `handleSubmitExam`: the score is the number of questions answered with their
        own answer, and the exam is marked submitted, which stops the clock. */
    method HandleSubmitExam()
      requires Valid()
      modifies this
      ensures Valid()
      ensures score == Score(questions, selectedAnswers) && score <= |questions|
      ensures submitted
      ensures selectedAnswers == old(selectedAnswers) && timer == old(timer)
    {
      var correctCount := CountCorrect(questions, selectedAnswers);
      score := correctCount;
      submitted := true;
    }

    /** `handleRetryExam`: answers cleared, exam reopened, score 0 and the timer
        back at exactly its starting value. */
    method HandleRetryExam()
      requires Valid()
      modifies this
      ensures Valid()
      ensures selectedAnswers == map[] && !submitted && score == 0
      ensures timer == timeAllowed * 60
    {
      selectedAnswers := map[];
      submitted := false;
      score := 0;
      timer := timeAllowed * 60;
    }
  }
}
