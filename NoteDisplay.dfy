/** The study-note view (src/components/note-display.tsx): the note text
    with its line breaks turned into HTML breaks, and the one-question quiz
    with its feedback message. */
module NoteDisplay {
  import opened Types

  const SuccessFeedback: string := "Tebrikler, doğru cevap!"
  const WrongFeedbackPrefix: string := "Yanlış cevap. Doğru seçenek: "
  const LineBreak: string := "<br />"

  /** The `summaryQuiz` of a note. */
  datatype SummaryQuiz = SummaryQuiz(question: string, options: seq<string>, correctAnswerIndex: int, explanation: string)

  /** The fields of `GenerateBiologyNoteOutput` the view's logic reads. */
  datatype Note = Note(title: string, content: string, summaryQuiz: SummaryQuiz)

  /** What the note flow's output schema guarantees of the quiz. */
  predicate WellFormedQuiz(q: SummaryQuiz)
  {
    |q.options| == 4 && 0 <= q.correctAnswerIndex <= 3
  }

  /** `${options[i]}`: an index outside the array reads `undefined`, which a
      template literal prints as the word "undefined". */
  function OptionText(options: seq<string>, i: int): string
  {
    if 0 <= i < |options| then options[i] else "undefined"
  }

  /** The feedback text after checking answer `selected`. */
  function Feedback(quiz: SummaryQuiz, selected: int): string
  {
    if selected == quiz.correctAnswerIndex then SuccessFeedback
    else WrongFeedbackPrefix + OptionText(quiz.options, quiz.correctAnswerIndex)
  }

  /** The two kinds of feedback can never be confused: the text is the
      success message exactly when the answer was right, and a wrong answer
      is told the correct option, which for a well-formed quiz is a real
      option (and the word "undefined" otherwise). */
  lemma FeedbackTellsRightFromWrong(quiz: SummaryQuiz, selected: int)
    ensures Feedback(quiz, selected) == SuccessFeedback <==> selected == quiz.correctAnswerIndex
    ensures WellFormedQuiz(quiz) && selected != quiz.correctAnswerIndex
            ==> Feedback(quiz, selected) == WrongFeedbackPrefix + quiz.options[quiz.correctAnswerIndex]
    ensures !(0 <= quiz.correctAnswerIndex < |quiz.options|) && selected != quiz.correctAnswerIndex
            ==> Feedback(quiz, selected) == WrongFeedbackPrefix + "undefined"
  {
    if selected != quiz.correctAnswerIndex {
      var f := Feedback(quiz, selected);
      assert f[0] == 'Y';
      assert SuccessFeedback[0] == 'T';
    }
  }

  /** `content.replace(/\n/g, '<br />')` */
  function ReplaceNewlines(s: string): string
  {
    if s == [] then []
    else (if s[0] == '\n' then LineBreak else [s[0]]) + ReplaceNewlines(s[1..])
  }

  function CountNewlines(s: string): nat
  {
    if s == [] then 0 else (if s[0] == '\n' then 1 else 0) + CountNewlines(s[1..])
  }

  /** The replacement works piecewise: a text split anywhere is converted
      as its two parts. */
  lemma {:induction false} ReplaceNewlinesConcat(a: string, b: string)
    ensures ReplaceNewlines(a + b) == ReplaceNewlines(a) + ReplaceNewlines(b)
  {
    if a == [] {
      assert a + b == b;
    } else {
      assert (a + b)[0] == a[0];
      assert (a + b)[1..] == a[1..] + b;
      ReplaceNewlinesConcat(a[1..], b);
    }
  }

  /** Every line break is replaced: none is left, and each one grows the
      text by the five extra characters of `<br />`. */
  lemma {:induction false} ReplaceNewlinesRemovesAll(s: string)
    ensures '\n' !in ReplaceNewlines(s)
    ensures |ReplaceNewlines(s)| == |s| + 5 * CountNewlines(s)
  {
    if s != [] {
      ReplaceNewlinesRemovesAll(s[1..]);
      var head := if s[0] == '\n' then LineBreak else [s[0]];
      assert '\n' !in head;
      assert ReplaceNewlines(s) == head + ReplaceNewlines(s[1..]);
    }
  }

  /** A text without line breaks is shown as it is. */
  lemma {:induction false} ReplaceNewlinesKeepsPlainText(s: string)
    requires '\n' !in s
    ensures ReplaceNewlines(s) == s
  {
    if s != [] {
      assert s[0] != '\n';
      assert '\n' !in s[1..];
      ReplaceNewlinesKeepsPlainText(s[1..]);
    }
  }

  class NoteView {
    var note: Note
    var selectedAnswerIndex: Option<int>
    var quizFeedback: Option<string>
    var showExplanation: bool

    constructor (note: Note)
      ensures this.note == note
      ensures selectedAnswerIndex == None && quizFeedback == None && !showExplanation
    {
      this.note := note;
      selectedAnswerIndex := None;
      quizFeedback := None;
      showExplanation := false;
    }

    /** A new note: the reset effect clears the quiz. */
    method LoadNote(n: Note)
      modifies this
      ensures note == n
      ensures selectedAnswerIndex == None && quizFeedback == None && !showExplanation
    {
      note := n;
      selectedAnswerIndex := None;
      quizFeedback := None;
      showExplanation := false;
    }

    /** `onValueChange`: `Number(value)` of the option's index. */
    method SelectAnswer(index: int)
      modifies this`selectedAnswerIndex
      ensures selectedAnswerIndex == Some(index)
    {
      selectedAnswerIndex := Some(index);
    }

    /** `handleQuizSubmit`: without a choice only a warning appears;
        otherwise the feedback for the choice is set and the explanation
        opens. */
    method HandleQuizSubmit()
      modifies this`quizFeedback, this`showExplanation
      ensures selectedAnswerIndex.None? ==> quizFeedback == old(quizFeedback) && showExplanation == old(showExplanation)
      ensures selectedAnswerIndex.Some? ==> quizFeedback == Some(Feedback(note.summaryQuiz, selectedAnswerIndex.value))
      ensures selectedAnswerIndex.Some? ==> showExplanation
      ensures selectedAnswerIndex.Some? ==> (FeedbackIsPositive() <==> quizFeedback == Some(SuccessFeedback))
    {
      if selectedAnswerIndex == None {
        return;
      }
      var isCorrect := selectedAnswerIndex.value == note.summaryQuiz.correctAnswerIndex;
      if isCorrect {
        quizFeedback := Some(SuccessFeedback);
      } else {
        quizFeedback := Some(WrongFeedbackPrefix + OptionText(note.summaryQuiz.options, note.summaryQuiz.correctAnswerIndex));
      }
      showExplanation := true;
      FeedbackTellsRightFromWrong(note.summaryQuiz, selectedAnswerIndex.value);
    }

    /** The feedback box is green when the current choice is right. */
    function FeedbackIsPositive(): bool
      reads this
    {
      selectedAnswerIndex == Some(note.summaryQuiz.correctAnswerIndex)
    }

    /** The note body as HTML. */
    function ContentHtml(): string
      reads this
    {
      ReplaceNewlines(note.content)
    }
  }
}
