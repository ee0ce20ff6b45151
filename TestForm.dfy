/** The test generator's form (src/components/test-form.tsx) and the input
    schema of the test flow it feeds
    (src/ai/flows/generate-biology-test-flow.ts). */
module TestForm {
  import opened FormFields

  const MinQuestions: int := 1
  const MaxQuestions: int := 10

  /** `TestFormValues`; the question count after `z.coerce.number()`. */
  datatype TestFormValues = TestFormValues(topic: string, gradeLevel: string, difficultyLevel: string, numberOfQuestions: int)

  /** `defaultValues` */
  const Defaults: TestFormValues := TestFormValues("", "9", "Orta", 5)

  /** `testFormSchema`: the fields that fail their rule. */
  function Errors(v: TestFormValues): (r: set<Field>)
    ensures Topic in r <==> !ValidTopic(v.topic)
    ensures GradeLevel in r <==> !ValidGrade(v.gradeLevel)
    ensures DifficultyLevel in r <==> !ValidDifficulty(v.difficultyLevel)
    ensures NumberOfQuestions in r <==> !(MinQuestions <= v.numberOfQuestions <= MaxQuestions)
    ensures r <= {Topic, GradeLevel, DifficultyLevel, NumberOfQuestions}
  {
    ErrorIf(ValidTopic(v.topic), Topic)
    + ErrorIf(ValidGrade(v.gradeLevel), GradeLevel)
    + ErrorIf(ValidDifficulty(v.difficultyLevel), DifficultyLevel)
    + ErrorIf(MinQuestions <= v.numberOfQuestions <= MaxQuestions, NumberOfQuestions)
  }

  /** The default values fail on the topic alone, and any topic of 3 to 150
      characters makes them valid. */
  lemma DefaultsNeedOnlyATopic(topic: string)
    ensures Errors(Defaults) == {Topic}
    ensures Errors(Defaults.(topic := topic)) == {} <==> ValidTopic(topic)
  {
    assert ValidGrade("9") && ValidDifficulty("Orta");
    assert Errors(Defaults) == {Topic};
  }

  /** `GenerateBiologyTestInputSchema` */
  predicate FlowAccepts(v: TestFormValues)
  {
    && ValidGrade(v.gradeLevel) && ValidDifficulty(v.difficultyLevel)
    && 1 <= v.numberOfQuestions <= 10
  }

  /** Whatever the form lets through, the flow accepts. */
  lemma ValidFormIsValidFlowInput(v: TestFormValues)
    requires Errors(v) == {}
    ensures FlowAccepts(v)
  {
    assert GradeLevel !in Errors(v) && DifficultyLevel !in Errors(v) && NumberOfQuestions !in Errors(v);
  }
}
