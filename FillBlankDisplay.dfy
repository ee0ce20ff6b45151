/** The fill-in-the-blank view (src/components/fill-blank-display.tsx): the
    sentence is split at the blank marker, the blank shows the chosen or the
    correct answer, and checking compares the chosen text with the correct
    one. */
module FillBlankDisplay {
  import opened Types
  import Marks

  /** The placeholder the generator puts where the term belongs. */
  const Marker: string := "__BLANK__"

  /** `GenerateFillBlankOutput` */
  datatype Exercise = Exercise(exerciseSentence: string, correctAnswer: string, options: seq<string>)

  /** `sep` occurs in `s` starting at `p`. */
  predicate OccursAt(s: string, sep: string, p: int)
  {
    0 <= p && p + |sep| <= |s| && s[p..p + |sep|] == sep
  }

  predicate Contains(s: string, sep: string)
  {
    exists p :: 0 <= p <= |s| && OccursAt(s, sep, p)
  }

  /** The first position at which `sep` occurs in `s`, if any. */
  function FirstOccurrence(s: string, sep: string): (r: Option<nat>)
    requires |sep| > 0
    ensures r.Some? ==> OccursAt(s, sep, r.value)
    ensures r.Some? ==> forall q :: 0 <= q < r.value ==> !OccursAt(s, sep, q)
    ensures r.None? <==> !Contains(s, sep)
    decreases |s|
  {
    if |s| < |sep| then None
    else if s[..|sep|] == sep then
      assert OccursAt(s, sep, 0);
      Some(0)
    else
      match FirstOccurrence(s[1..], sep)
      case None =>
        assert forall q :: OccursAt(s, sep, q) && q > 0 ==> OccursAt(s[1..], sep, q - 1);
        None
      case Some(p) =>
        assert forall q :: 0 < q <= p ==> (OccursAt(s, sep, q) ==> OccursAt(s[1..], sep, q - 1));
        assert s[1..][p..p + |sep|] == s[p + 1..p + 1 + |sep|];
        assert OccursAt(s, sep, p + 1);
        Some(p + 1)
  }

  /** `s.split(sep)` for a non-empty separator: the pieces between
      successive non-overlapping occurrences, scanning from the left. */
  function Split(s: string, sep: string): (parts: seq<string>)
    requires |sep| > 0
    ensures |parts| >= 1
    decreases |s|
  {
    match FirstOccurrence(s, sep)
    case None => [s]
    case Some(p) => [s[..p]] + Split(s[p + |sep|..], sep)
  }

  /** `parts.join(sep)` */
  function Join(parts: seq<string>, sep: string): string
  {
    if |parts| == 0 then ""
    else if |parts| == 1 then parts[0]
    else parts[0] + sep + Join(parts[1..], sep)
  }

  /** Splitting loses nothing: joining the pieces with the separator gives
      the sentence back. */
  lemma {:induction false} JoinSplit(s: string, sep: string)
    requires |sep| > 0
    ensures Join(Split(s, sep), sep) == s
    decreases |s|
  {
    match FirstOccurrence(s, sep)
    case None =>
    case Some(p) =>
      var rest := s[p + |sep|..];
      JoinSplit(rest, sep);
      var tail := Split(rest, sep);
      var parts := [s[..p]] + tail;
      assert Split(s, sep) == parts;
      assert |parts| >= 2 && parts[0] == s[..p] && parts[1..] == tail;
      assert Join(parts, sep) == s[..p] + sep + Join(tail, sep);
      assert s == s[..p] + s[p..p + |sep|] + rest;
  }

  /** No piece contains the separator. */
  lemma {:induction false} SplitPiecesAreFree(s: string, sep: string)
    requires |sep| > 0
    ensures forall i :: 0 <= i < |Split(s, sep)| ==> !Contains(Split(s, sep)[i], sep)
    decreases |s|
  {
    match FirstOccurrence(s, sep)
    case None =>
    case Some(p) =>
      var rest := s[p + |sep|..];
      SplitPiecesAreFree(rest, sep);
      forall q | OccursAt(s[..p], sep, q) ensures false {
        assert s[..p][q..q + |sep|] == s[q..q + |sep|];
        assert OccursAt(s, sep, q);
      }
  }

  /** A sentence without the separator is one piece. */
  lemma SplitWithoutSeparator(s: string, sep: string)
    requires |sep| > 0 && !Contains(s, sep)
    ensures Split(s, sep) == [s]
  {
  }

  /** The text inside the blank: the correct answer once checked, before that
      the chosen option, or `...` when nothing (or an empty text) is chosen. */
  function BlankText(isSubmitted: bool, selected: Option<string>, correctAnswer: string): (t: string)
    ensures isSubmitted ==> t == correctAnswer
    ensures !isSubmitted && Truthy(selected) ==> t == selected.value
    ensures !isSubmitted && !Truthy(selected) ==> t == "..."
  {
    if isSubmitted then correctAnswer
    else if Truthy(selected) then selected.value
    else "..."
  }

  /** The rendered sentence: the first piece, the blank, the second piece
      (nothing when there is none). Later pieces are not shown. */
  function Rendered(sentence: string, blank: string): string
  {
    var parts := Split(sentence, Marker);
    parts[0] + blank + (if |parts| > 1 then parts[1] else "")
  }

  /** With exactly one marker the rendered sentence is the sentence with its
      marker replaced by the blank text. */
  lemma OneMarkerIsReplaced(sentence: string, blank: string)
    requires |Split(sentence, Marker)| == 2
    ensures var parts := Split(sentence, Marker);
            && sentence == parts[0] + Marker + parts[1]
            && Rendered(sentence, blank) == parts[0] + blank + parts[1]
  {
    JoinSplit(sentence, Marker);
    var parts := Split(sentence, Marker);
    assert parts[1..] == [parts[1]];
  }

  /** A sentence without a marker is shown whole, with the blank after it. */
  lemma NoMarkerShowsBlankAtEnd(sentence: string, blank: string)
    requires !Contains(sentence, Marker)
    ensures Rendered(sentence, blank) == sentence + blank
  {
    SplitWithoutSeparator(sentence, Marker);
  }

  /** What checking reports. */
  datatype Verdict = NoSelection | Correct | Wrong(correctAnswer: string)

  class FillBlankView {
    var exercise: Exercise
    var selectedAnswer: Option<string>
    var isSubmitted: bool

    constructor (exercise: Exercise)
      ensures this.exercise == exercise && selectedAnswer == None && !isSubmitted
    {
      this.exercise := exercise;
      selectedAnswer := None;
      isSubmitted := false;
    }

    /** A new exercise: the reset effect clears the choice and the check. */
    method LoadExercise(e: Exercise)
      modifies this
      ensures exercise == e && selectedAnswer == None && !isSubmitted
    {
      exercise := e;
      selectedAnswer := None;
      isSubmitted := false;
    }

    /** `onValueChange`: the chosen option's text. */
    method Select(option: string)
      modifies this`selectedAnswer
      ensures selectedAnswer == Some(option)
    {
      selectedAnswer := Some(option);
    }

    /** `handleCheckAnswer`: without a choice only a warning is shown and
        nothing changes; otherwise the exercise is marked checked and the
        verdict compares the chosen text with the correct answer. */
    method HandleCheckAnswer() returns (v: Verdict)
      modifies this`isSubmitted
      ensures v == NoSelection <==> selectedAnswer == None
      ensures v == NoSelection ==> isSubmitted == old(isSubmitted)
      ensures v != NoSelection ==> isSubmitted
      ensures v == Correct <==> selectedAnswer == Some(exercise.correctAnswer)
      ensures v.Wrong? ==> v.correctAnswer == exercise.correctAnswer
    {
      if selectedAnswer == None {
        return NoSelection;
      }
      isSubmitted := true;
      if selectedAnswer.value == exercise.correctAnswer {
        v := Correct;
      } else {
        v := Wrong(exercise.correctAnswer);
      }
    }

    /** The mark of option `option` as rendered. */
    function MarkOf(option: string): Marks.Mark
      reads this
    {
      Marks.OptionMark(isSubmitted, selectedAnswer, exercise.correctAnswer, option)
    }

    /** The sentence as rendered. */
    function Sentence(): string
      reads this
    {
      Rendered(exercise.exerciseSentence, BlankText(isSubmitted, selectedAnswer, exercise.correctAnswer))
    }
  }

  /** After a check the sentence reads correctly whatever was chosen: with one
      marker, it is the sentence with the correct answer in the blank, and
      the chosen option is marked wrong exactly when it differs from it. */
  lemma CheckedSentenceShowsCorrectAnswer(e: Exercise, selected: string)
    requires |Split(e.exerciseSentence, Marker)| == 2
    ensures var parts := Split(e.exerciseSentence, Marker);
            Rendered(e.exerciseSentence, BlankText(true, Some(selected), e.correctAnswer))
              == parts[0] + e.correctAnswer + parts[1]
    ensures Marks.OptionMark(true, Some(selected), e.correctAnswer, selected) == Marks.MarkedWrong
        <==> selected != e.correctAnswer
  {
    OneMarkerIsReplaced(e.exerciseSentence, e.correctAnswer);
  }
}
