/** The fields the three generator forms share (src/components/test-form.tsx,
    src/components/note-form.tsx, src/components/fill-blank-form.tsx): the
    topic length bounds and the grade and difficulty choices. A schema's
    verdict is the set of fields it reports an error for. */
module FormFields {
  const MinTopicLength: nat := 3
  const MaxTopicLength: nat := 150

  const Grades: seq<string> := ["9", "10", "11", "12"]
  const Difficulties: seq<string> := ["Kolay", "Orta", "Zor"]

  /** The fields a form can report an error for. */
  datatype Field = Topic | GradeLevel | DifficultyLevel | NumberOfQuestions | Tone | DetailLevel

  /** `z.string().min(3).max(150)` */
  predicate ValidTopic(topic: string)
  {
    MinTopicLength <= |topic| <= MaxTopicLength
  }

  /** `z.enum(['9', '10', '11', '12'])` */
  predicate ValidGrade(grade: string)
  {
    grade in Grades
  }

  /** `z.enum(['Kolay', 'Orta', 'Zor'])` */
  predicate ValidDifficulty(difficulty: string)
  {
    difficulty in Difficulties
  }

  /** The field's name when `ok` fails, nothing otherwise. */
  function ErrorIf(ok: bool, field: Field): (r: set<Field>)
    ensures field in r <==> !ok
    ensures r <= {field}
  {
    if ok then {} else {field}
  }
}
