/** The multiple-choice test view (src/components/test-display.tsx): answers
    chosen per question, scoring on submission, the all-answered rule that
    enables the submit button, and the marking of each option. */
module TestDisplay {
  import opened Types
  import Marks

  /** One generated question (`QuestionItemSchema`). */
  datatype Question = Question(questionText: string, options: seq<string>, correctAnswerIndex: int, explanation: string)

  /** `GenerateBiologyTestOutput` */
  datatype TestData = TestData(testTitle: string, questions: seq<Question>)

  /** What the output schema of the test flow guarantees of a question: four
      options and a correct index between 0 and 3. */
  predicate WellFormedQuestion(q: Question)
  {
    |q.options| == 4 && 0 <= q.correctAnswerIndex <= 3
  }

  /** Options of the test view are compared by their index, so after the
      check a well-formed question shows exactly one option marked correct,
      and it is one of the four displayed. */
  lemma WellFormedQuestionMarksOneOption(q: Question, selected: Option<int>)
    requires WellFormedQuestion(q)
    ensures 0 <= q.correctAnswerIndex < |q.options|
    ensures forall i :: 0 <= i < |q.options| ==>
              (Marks.OptionMark(true, selected, q.correctAnswerIndex, i) == Marks.MarkedCorrect <==> i == q.correctAnswerIndex)
  {
  }

  /** `selectedAnswers[i] === correctAnswerIndex`: an absent or `null` entry
      never equals a number. */
  predicate AnsweredWith(answers: map<int, Option<int>>, i: int, answer: int)
  {
    i in answers && answers[i] == Some(answer)
  }

  /** The number of questions among the first `k` answered correctly. */
  function CorrectCount(questions: seq<Question>, answers: map<int, Option<int>>, k: nat): (r: nat)
    requires k <= |questions|
    ensures r <= k
    ensures r == 0 ==> forall i :: 0 <= i < k ==> !AnsweredWith(answers, i, questions[i].correctAnswerIndex)
  {
    if k == 0 then 0
    else CorrectCount(questions, answers, k - 1)
         + (if AnsweredWith(answers, k - 1, questions[k - 1].correctAnswerIndex) then 1 else 0)
  }

  /** The indices among the first `k` whose answer is the correct one. */
  ghost function CorrectIndices(questions: seq<Question>, answers: map<int, Option<int>>, k: nat): set<int>
    requires k <= |questions|
  {
    set i | 0 <= i < k && AnsweredWith(answers, i, questions[i].correctAnswerIndex)
  }

  /** The score is the number of correctly answered questions. */
  lemma {:induction false} CorrectCountIsNumberOfCorrectIndices(questions: seq<Question>, answers: map<int, Option<int>>, k: nat)
    requires k <= |questions|
    ensures CorrectCount(questions, answers, k) == |CorrectIndices(questions, answers, k)|
  {
    if k > 0 {
      CorrectCountIsNumberOfCorrectIndices(questions, answers, k - 1);
      var prev := CorrectIndices(questions, answers, k - 1);
      if AnsweredWith(answers, k - 1, questions[k - 1].correctAnswerIndex) {
        assert CorrectIndices(questions, answers, k) == prev + {k - 1};
      } else {
        assert CorrectIndices(questions, answers, k) == prev;
      }
    }
  }

  /** The keys holding a non-null answer. */
  function AnsweredKeys(answers: map<int, Option<int>>): set<int>
  {
    set k | k in answers && answers[k].Some?
  }

  function IndexRange(n: nat): (r: set<int>)
    ensures |r| == n
    ensures forall i :: i in r <==> 0 <= i < n
  {
    if n == 0 then {} else
      var r := IndexRange(n - 1) + {n - 1};
      assert n - 1 !in IndexRange(n - 1);
      r
  }

  /** A subset with as many elements as the whole set is the whole set. */
  lemma SubsetOfSameSize(a: set<int>, b: set<int>)
    requires a <= b && |a| == |b|
    ensures a == b
  {
    var rest := b - a;
    assert b == a + rest;
    assert a !! rest;
    assert |b| == |a| + |rest|;
    assert rest == {};
  }

  /** `allQuestionsAnswered` counts answered keys. When every key is a
      question's index, as the view guarantees, this is the same as every
      question having an answer. */
  lemma AllAnsweredMeansEveryQuestion(n: nat, answers: map<int, Option<int>>)
    requires forall k :: k in answers ==> 0 <= k < n
    ensures |AnsweredKeys(answers)| == n <==> forall i :: 0 <= i < n ==> i in answers && answers[i].Some?
  {
    var keys, range := AnsweredKeys(answers), IndexRange(n);
    assert keys <= range;
    if |keys| == n {
      SubsetOfSameSize(keys, range);
      forall i | 0 <= i < n ensures i in answers && answers[i].Some? {
        assert i in range;
      }
    }
    if forall i :: 0 <= i < n ==> i in answers && answers[i].Some? {
      assert range <= keys;
      assert keys == range;
    }
  }

  /** The selected answer of question `q` as the radio group reads it. */
  function SelectedOf(answers: map<int, Option<int>>, q: int): (r: Option<int>)
    ensures r.Some? <==> q in answers && answers[q].Some?
    ensures r.Some? ==> r == answers[q]
  {
    if q in answers then answers[q] else None
  }

  /** A question counts towards the score exactly when its chosen option is
      shown with the strong green border after submission. */
  lemma ScoredExactlyWhenChosenIsGreen(questions: seq<Question>, answers: map<int, Option<int>>, i: int)
    requires 0 <= i < |questions|
    ensures var ci := questions[i].correctAnswerIndex;
            (AnsweredWith(answers, i, ci)
             <==> Marks.OptionBorder(true, SelectedOf(answers, i), ci, ci) == Marks.ChosenCorrect)
  {
  }

  class TestView {
    var testData: TestData
    var selectedAnswers: map<int, Option<int>>
    var isSubmitted: bool
    var score: int

    /** The view's state when a test is first shown. */
    constructor (testData: TestData)
      ensures this.testData == testData
      ensures selectedAnswers == map[] && !isSubmitted && score == 0
    {
      this.testData := testData;
      selectedAnswers := map[];
      isSubmitted := false;
      score := 0;
    }

    /** New `testData`: the reset effect clears answers, submission and score. */
    method LoadTest(data: TestData)
      modifies this
      ensures testData == data
      ensures selectedAnswers == map[] && !isSubmitted && score == 0
    {
      testData := data;
      selectedAnswers := map[];
      isSubmitted := false;
      score := 0;
    }

    /** `handleAnswerChange`: only the entry of question `q` changes. */
    method HandleAnswerChange(q: int, answer: int)
      modifies this`selectedAnswers
      ensures selectedAnswers == old(selectedAnswers)[q := Some(answer)]
      ensures forall k :: k != q ==> (k in selectedAnswers <==> k in old(selectedAnswers))
      ensures forall k :: k != q && k in selectedAnswers ==> selectedAnswers[k] == old(selectedAnswers)[k]
    {
      selectedAnswers := selectedAnswers[q := Some(answer)];
    }

    /** `handleSubmitTest`: the score is the number of correctly answered
        questions, between 0 and the number of questions, and the test is
        marked submitted. The answers stay as they were. */
    method HandleSubmitTest()
      modifies this`score, this`isSubmitted
      ensures score == CorrectCount(testData.questions, selectedAnswers, |testData.questions|)
      ensures 0 <= score <= |testData.questions|
      ensures isSubmitted
    {
      var currentScore := 0;
      var questions := testData.questions;
      var index := 0;
      while index < |questions|
        invariant 0 <= index <= |questions|
        invariant currentScore == CorrectCount(questions, selectedAnswers, index)
      {
        if AnsweredWith(selectedAnswers, index, questions[index].correctAnswerIndex) {
          currentScore := currentScore + 1;
        }
        index := index + 1;
      }
      score := currentScore;
      isSubmitted := true;
    }

    /** The reset button after submission. */
    method HandleReset()
      modifies this`selectedAnswers, this`isSubmitted, this`score
      ensures selectedAnswers == map[] && !isSubmitted && score == 0
    {
      selectedAnswers := map[];
      isSubmitted := false;
      score := 0;
    }

    /** `allQuestionsAnswered`: the number of non-null answer entries equals
        the number of questions. As long as answers are only given to the
        questions shown, this means every question has an answer. */
    function AllQuestionsAnswered(): (r: bool)
      reads this
      ensures (forall k :: k in selectedAnswers ==> 0 <= k < |testData.questions|)
              ==> (r <==> forall i :: 0 <= i < |testData.questions| ==> SelectedOf(selectedAnswers, i).Some?)
    {
      if forall k :: k in selectedAnswers ==> 0 <= k < |testData.questions| then
        AllAnsweredExactlyWhenEveryQuestionIs(testData.questions, selectedAnswers);
        |testData.questions| == |AnsweredKeys(selectedAnswers)|
      else
        |testData.questions| == |AnsweredKeys(selectedAnswers)|
    }
  }

  /** An answer to every question, chosen through the radio groups, enables
      the submit button; one question left open keeps it disabled. */
  lemma AllAnsweredExactlyWhenEveryQuestionIs(questions: seq<Question>, answers: map<int, Option<int>>)
    requires forall k :: k in answers ==> 0 <= k < |questions|
    ensures |questions| == |AnsweredKeys(answers)|
        <==> forall i :: 0 <= i < |questions| ==> SelectedOf(answers, i).Some?
  {
    AllAnsweredMeansEveryQuestion(|questions|, answers);
    forall i | 0 <= i < |questions|
      ensures SelectedOf(answers, i).Some? <==> i in answers && answers[i].Some?
    {
    }
  }
}
