/** The translation form (src/components/input-form.tsx): its validation
    schema, the merge of default values, the switch that selects the
    explanation mode and the Enter-key rule of the text area. */
module InputForm {
  import opened Types

  const MinInputLength: nat := 1
  const MaxInputLength: nat := 500

  /** Validated form values, what `onSubmit` receives. */
  datatype InputFormValues = InputFormValues(turkishInput: string, mode: ExplanationMode)

  /** The values as the form holds them before the schema checks them. */
  datatype RawInput = RawInput(turkishInput: string, mode: string)

  function ModeName(m: ExplanationMode): string
  {
    match m
    case Beginner => "Beginner"
    case Advanced => "Advanced"
  }

  /** `z.enum(['Beginner', 'Advanced'])` */
  function ParseMode(s: string): (r: Option<ExplanationMode>)
    ensures r.Some? <==> s == "Beginner" || s == "Advanced"
    ensures r.Some? ==> ModeName(r.value) == s
  {
    if s == "Beginner" then Some(Beginner)
    else if s == "Advanced" then Some(Advanced)
    else None
  }

  /** `formSchema`: the text must hold 1 to 500 characters and the mode must
      be one of the two names; accepted values pass through unchanged. */
  function Validate(raw: RawInput): (r: Option<InputFormValues>)
    ensures r.Some? <==> (MinInputLength <= |raw.turkishInput| <= MaxInputLength
                          && (raw.mode == "Beginner" || raw.mode == "Advanced"))
    ensures r.Some? ==> r.value.turkishInput == raw.turkishInput && ModeName(r.value.mode) == raw.mode
  {
    if MinInputLength <= |raw.turkishInput| <= MaxInputLength then
      match ParseMode(raw.mode)
      case Some(m) => Some(InputFormValues(raw.turkishInput, m))
      case None => None
    else None
  }

  function ToRaw(v: InputFormValues): RawInput
  {
    RawInput(v.turkishInput, ModeName(v.mode))
  }

  /** Validated values validate again to themselves. */
  lemma ValidateIsIdempotent(v: InputFormValues)
    requires MinInputLength <= |v.turkishInput| <= MaxInputLength
    ensures Validate(ToRaw(v)) == Some(v)
  {
  }

  /** `Partial<InputFormValues>`: a missing key is `None`. */
  datatype PartialInput = PartialInput(turkishInput: Option<string>, mode: Option<ExplanationMode>)

  /** The built-in defaults of the form. */
  const BuiltInDefaults: InputFormValues := InputFormValues("", Beginner)

  /** `{ turkishInput: '', mode: 'Beginner', ...defaultValues }`: each
      supplied field overrides the built-in one. */
  function MergeDefaults(supplied: Option<PartialInput>): (r: InputFormValues)
    ensures supplied.None? ==> r == BuiltInDefaults
    ensures supplied.Some? && supplied.value.turkishInput.Some? ==> r.turkishInput == supplied.value.turkishInput.value
    ensures supplied.Some? && supplied.value.turkishInput.None? ==> r.turkishInput == BuiltInDefaults.turkishInput
    ensures supplied.Some? && supplied.value.mode.Some? ==> r.mode == supplied.value.mode.value
    ensures supplied.Some? && supplied.value.mode.None? ==> r.mode == BuiltInDefaults.mode
  {
    match supplied
    case None => BuiltInDefaults
    case Some(p) =>
      InputFormValues(
        match p.turkishInput case Some(t) => t case None => BuiltInDefaults.turkishInput,
        match p.mode case Some(m) => m case None => BuiltInDefaults.mode)
  }

  /** The built-in defaults do not pass the schema: the empty text is too short. */
  lemma BuiltInDefaultsAreRejected()
    ensures Validate(ToRaw(MergeDefaults(None))) == None
  {
  }

  /** `checked={field.value === 'Advanced'}` */
  function SwitchChecked(mode: ExplanationMode): bool
  {
    mode == Advanced
  }

  /** `onCheckedChange={(checked) => field.onChange(checked ? 'Advanced' : 'Beginner')}` */
  function ModeFromSwitch(checked: bool): ExplanationMode
  {
    if checked then Advanced else Beginner
  }

  /** The switch and the mode are in one-to-one correspondence. */
  lemma SwitchRoundTrips(mode: ExplanationMode, checked: bool)
    ensures ModeFromSwitch(SwitchChecked(mode)) == mode
    ensures SwitchChecked(ModeFromSwitch(checked)) == checked
    ensures ModeFromSwitch(checked) == Advanced <==> checked
  {
  }

  /** What a key press in the text area does. */
  datatype KeyOutcome = KeyOutcome(preventDefault: bool, submit: bool)

  /** `handleTextareaKeyDown`: Enter without Shift never inserts a newline and
      submits unless a request is running; any other key, Shift+Enter
      included, is left to the browser. */
  function TextareaKeyDown(key: string, shiftKey: bool, isLoading: bool): (r: KeyOutcome)
    ensures r.preventDefault <==> key == "Enter" && !shiftKey
    ensures r.submit <==> key == "Enter" && !shiftKey && !isLoading
  {
    if key == "Enter" && !shiftKey then KeyOutcome(true, !isLoading) else KeyOutcome(false, false)
  }

  /** `form.handleSubmit(onSubmit)()` after a key press: `onSubmit` receives
      the values only when the key submits and the schema accepts them. */
  function SubmittedByKey(key: string, shiftKey: bool, isLoading: bool, raw: RawInput): (r: Option<InputFormValues>)
    ensures r.Some? <==> TextareaKeyDown(key, shiftKey, isLoading).submit && Validate(raw).Some?
    ensures r.Some? ==> r == Validate(raw)
  {
    if TextareaKeyDown(key, shiftKey, isLoading).submit then Validate(raw) else None
  }
}
