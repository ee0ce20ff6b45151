/** The note generator's form (src/components/note-form.tsx) and the input
    schema of the note flow it feeds
    (src/ai/flows/generate-biology-note-flow.ts). */
module NoteForm {
  import opened FormFields

  const FormTones: seq<string> := ["Standard", "Humorous", "Engaging", "Dengeli"]
  const DetailLevels: seq<string> := ["Kısa Özet", "Orta Detay", "Tam Detay"]

  /** The tones of the flow's input schema as written. */
  const FlowTones: seq<string> := ["Standard", "Humorous", "Engaging"]

  /** `NoteFormValues` */
  datatype NoteFormValues = NoteFormValues(topic: string, gradeLevel: string, tone: string, detailLevel: string)

  /** `defaultValues` */
  const Defaults: NoteFormValues := NoteFormValues("", "9", "Engaging", "Orta Detay")

  /** `noteFormSchema`: the fields that fail their rule. */
  function Errors(v: NoteFormValues): (r: set<Field>)
    ensures Topic in r <==> !ValidTopic(v.topic)
    ensures GradeLevel in r <==> !ValidGrade(v.gradeLevel)
    ensures Tone in r <==> v.tone !in FormTones
    ensures DetailLevel in r <==> v.detailLevel !in DetailLevels
    ensures r <= {Topic, GradeLevel, Tone, DetailLevel}
  {
    ErrorIf(ValidTopic(v.topic), Topic)
    + ErrorIf(ValidGrade(v.gradeLevel), GradeLevel)
    + ErrorIf(v.tone in FormTones, Tone)
    + ErrorIf(v.detailLevel in DetailLevels, DetailLevel)
  }

  /** The default values fail on the topic alone, and any topic of 3 to 150
      characters makes them valid. */
  lemma DefaultsNeedOnlyATopic(topic: string)
    ensures Errors(Defaults) == {Topic}
    ensures Errors(Defaults.(topic := topic)) == {} <==> ValidTopic(topic)
  {
    assert ValidGrade("9") && "Engaging" in FormTones && "Orta Detay" in DetailLevels;
    assert Errors(Defaults) == {Topic};
  }

  /** `GenerateBiologyNoteInputSchema` as written: the page passes the topic,
      the grade and the tone (the detail level is not sent). */
  predicate FlowAccepts(v: NoteFormValues)
  {
    ValidGrade(v.gradeLevel) && v.tone in FlowTones
  }

  /** The form offers a tone the flow refuses: the values with the default
      fields, a valid topic and the tone "Dengeli" pass the form and fail the
      flow's input check. */
  lemma DengeliPassesFormButNotFlow()
    ensures var v := NoteFormValues("Fotosentez", "9", "Dengeli", "Orta Detay");
            Errors(v) == {} && !FlowAccepts(v)
  {
    var v := NoteFormValues("Fotosentez", "9", "Dengeli", "Orta Detay");
    assert ValidGrade("9") && "Dengeli" in FormTones && "Orta Detay" in DetailLevels;
    assert ValidTopic(v.topic);
    assert Errors(v) == {};
    assert "Dengeli" != "Standard" && "Dengeli" != "Humorous" && "Dengeli" != "Engaging";
  }

  /** The flow's input check with every tone the form offers. */
  predicate FlowAcceptsIntended(v: NoteFormValues)
  {
    ValidGrade(v.gradeLevel) && v.tone in FormTones
  }

  /** With the intended tones, whatever the form lets through, the flow
      accepts. */
  lemma ValidFormIsValidIntendedFlowInput(v: NoteFormValues)
    requires Errors(v) == {}
    ensures FlowAcceptsIntended(v)
  {
    assert GradeLevel !in Errors(v) && Tone !in Errors(v);
  }

  /** The two checks differ in the one tone only. */
  lemma FlowChecksDifferOnlyOnDengeli(v: NoteFormValues)
    ensures FlowAcceptsIntended(v) && !FlowAccepts(v) <==> ValidGrade(v.gradeLevel) && v.tone == "Dengeli"
  {
  }
}
