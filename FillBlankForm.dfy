/** The fill-in-the-blank generator's form
    (src/components/fill-blank-form.tsx) and the input schema of its flow
    (src/ai/flows/generate-fill-blank-flow.ts). */
module FillBlankForm {
  import opened FormFields

  /** `FillBlankFormValues` */
  datatype FillBlankFormValues = FillBlankFormValues(topic: string, gradeLevel: string, difficultyLevel: string)

  /** `defaultValues` */
  const Defaults: FillBlankFormValues := FillBlankFormValues("", "9", "Orta")

  /** `fillBlankFormSchema`: the fields that fail their rule. */
  function Errors(v: FillBlankFormValues): (r: set<Field>)
    ensures Topic in r <==> !ValidTopic(v.topic)
    ensures GradeLevel in r <==> !ValidGrade(v.gradeLevel)
    ensures DifficultyLevel in r <==> !ValidDifficulty(v.difficultyLevel)
    ensures r <= {Topic, GradeLevel, DifficultyLevel}
  {
    ErrorIf(ValidTopic(v.topic), Topic)
    + ErrorIf(ValidGrade(v.gradeLevel), GradeLevel)
    + ErrorIf(ValidDifficulty(v.difficultyLevel), DifficultyLevel)
  }

  /** The default values fail on the topic alone, and any topic of 3 to 150
      characters makes them valid. */
  lemma DefaultsNeedOnlyATopic(topic: string)
    ensures Errors(Defaults) == {Topic}
    ensures Errors(Defaults.(topic := topic)) == {} <==> ValidTopic(topic)
  {
    assert ValidGrade("9") && ValidDifficulty("Orta");
    assert Errors(Defaults) == {Topic};
  }

  /** `GenerateFillBlankInputSchema` checks the grade only; the difficulty
      the page also sends is an extra key the object schema strips. */
  predicate FlowAccepts(v: FillBlankFormValues)
  {
    ValidGrade(v.gradeLevel)
  }

  /** Whatever the form lets through, the flow accepts. */
  lemma ValidFormIsValidFlowInput(v: FillBlankFormValues)
    requires Errors(v) == {}
    ensures FlowAccepts(v)
  {
    assert GradeLevel !in Errors(v);
  }
}
