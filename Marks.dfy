/** The marking of answer options after a check, shared by the test view
    (src/components/test-display.tsx, options compared by index) and the
    fill-in-the-blank view (src/components/fill-blank-display.tsx, options
    compared by text). `selected === option` is false when nothing is
    selected. */
module Marks {
  import opened Types

  /** The text style and icon of an option. */
  datatype Mark = Neutral | MarkedCorrect | MarkedWrong

  /** Nothing is marked before the check; afterwards the correct option is
      marked correct and a chosen option that is not correct is marked
      wrong; every other option stays plain. */
  function OptionMark<T(==)>(isSubmitted: bool, selected: Option<T>, correct: T, option: T): (m: Mark)
    ensures !isSubmitted ==> m == Neutral
    ensures m == MarkedCorrect <==> isSubmitted && option == correct
    ensures m == MarkedWrong <==> isSubmitted && selected == Some(option) && option != correct
  {
    if isSubmitted then
      if option == correct then MarkedCorrect
      else if selected == Some(option) && option != correct then MarkedWrong
      else Neutral
    else Neutral
  }

  /** The border classes of an option's label. */
  datatype Border = Plain | ChosenCorrect | ChosenWrong | MissedCorrect

  /** The three conditional border classes are mutually exclusive, so one
      value describes them. */
  function OptionBorder<T(==)>(isSubmitted: bool, selected: Option<T>, correct: T, option: T): (b: Border)
    ensures b == ChosenCorrect <==> isSubmitted && selected == Some(option) && option == correct
    ensures b == ChosenWrong <==> isSubmitted && selected == Some(option) && option != correct
    ensures b == MissedCorrect <==> isSubmitted && option == correct && selected != Some(option)
  {
    if isSubmitted && selected == Some(option) && option == correct then ChosenCorrect
    else if isSubmitted && selected == Some(option) && option != correct then ChosenWrong
    else if isSubmitted && option == correct && selected != Some(option) then MissedCorrect
    else Plain
  }

  /** Border and mark agree: a green border goes with the correct mark and
      the red one with the wrong mark. */
  lemma BorderAgreesWithMark<T>(isSubmitted: bool, selected: Option<T>, correct: T, option: T)
    ensures var b := OptionBorder(isSubmitted, selected, correct, option);
            (b == ChosenCorrect || b == MissedCorrect) <==> OptionMark(isSubmitted, selected, correct, option) == MarkedCorrect
    ensures OptionBorder(isSubmitted, selected, correct, option) == ChosenWrong
        <==> OptionMark(isSubmitted, selected, correct, option) == MarkedWrong
  {
  }

  /** After the check, exactly the options equal to the correct one are
      marked correct, so with distinct options exactly one is. */
  lemma OneCorrectMark<T>(options: seq<T>, selected: Option<T>, correct: T, k: int)
    requires 0 <= k < |options| && options[k] == correct
    requires forall i, j :: 0 <= i < j < |options| ==> options[i] != options[j]
    ensures forall i :: 0 <= i < |options| ==>
              (OptionMark(true, selected, correct, options[i]) == MarkedCorrect <==> i == k)
  {
  }
}
