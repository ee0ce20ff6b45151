/** The fill-in-the-blank exercises page (src/app/exercises/page.tsx): the
    form, the loader, the error alert and the exercise are shown in turn as
    a request runs. The generator call is split into its start and its
    settlement; the reply is an input. */
module Exercises {
  import opened Types
  import opened FillBlankForm
  import opened FillBlankDisplay

  const DefaultError: string := "Alıştırma oluşturulurken bir hata oluştu. Lütfen girdilerinizi kontrol edin veya daha sonra tekrar deneyin."

  /** The error message `handleFormSubmit` shows for a failed request. */
  function FailureMessage(reply: Reply<Exercise>): (m: string)
    requires !reply.Returned?
    ensures reply.ThrewError? ==> m == reply.message
    ensures reply.ThrewOther? ==> m == DefaultError
  {
    if reply.ThrewError? then reply.message else DefaultError
  }

  /** Which parts of the page are displayed. */
  datatype View = View(form: bool, errorAlert: bool, loader: bool, exercise: bool)

  class ExercisesPage {
    var isLoading: bool
    var exerciseData: Option<Exercise>
    var error: Option<string>
    var currentFormValues: Option<FillBlankFormValues>

    /** A running request has cleared the exercise and the error and keeps
        its values; an error and an exercise are never held together; an
        exercise was asked for with values that are kept for "next". */
    ghost predicate Valid()
      reads this
    {
      && (isLoading ==> exerciseData.None? && error.None? && currentFormValues.Some?)
      && (error.Some? ==> exerciseData.None?)
      && (exerciseData.Some? ==> currentFormValues.Some?)
    }

    constructor ()
      ensures Valid()
      ensures !isLoading && exerciseData == None && error == None && currentFormValues == None
    {
      isLoading := false;
      exerciseData := None;
      error := None;
      currentFormValues := None;
    }

    /** `handleFormSubmit` up to the generator call: loading starts with the
        exercise and the error cleared, and the values are kept. The values
        sent are the submitted ones. (The form is hidden while loading.) */
    method Submit(values: FillBlankFormValues) returns (request: FillBlankFormValues)
      requires Valid() && !isLoading
      modifies this
      ensures Valid()
      ensures isLoading && exerciseData == None && error == None
      ensures currentFormValues == Some(values) && request == values
    {
      isLoading := true;
      exerciseData := None;
      error := None;
      currentFormValues := Some(values);
      request := values;
    }

    /** The rest of `handleFormSubmit`: the exercise, or the failure's
        message; loading ends either way. */
    method Settle(reply: Reply<Exercise>)
      requires Valid() && isLoading
      modifies this
      ensures Valid()
      ensures !isLoading && currentFormValues == old(currentFormValues)
      ensures reply.Returned? ==> exerciseData == Some(reply.value) && error == None
      ensures !reply.Returned? ==> exerciseData == None && error == Some(FailureMessage(reply))
    {
      match reply {
        case Returned(e) =>
          exerciseData := Some(e);
        case ThrewError(m) =>
          error := Some(m);
        case ThrewOther =>
          error := Some(DefaultError);
      }
      isLoading := false;
    }

    /** `handleNextExercise`: a new request with the kept values, or, when
        there are none, the exercise is dropped. */
    method NextExercise() returns (request: Option<FillBlankFormValues>)
      requires Valid() && !isLoading
      modifies this
      ensures Valid()
      ensures old(currentFormValues).Some? ==> (request == old(currentFormValues) && isLoading
                                                && exerciseData == None && error == None)
      ensures old(currentFormValues).None? ==> (request == None && exerciseData == None
                                                && error == old(error) && !isLoading)
      ensures currentFormValues == old(currentFormValues)
    {
      if currentFormValues.Some? {
        var r := Submit(currentFormValues.value);
        request := Some(r);
      } else {
        exerciseData := None;
        request := None;
      }
    }

    /** `handleGoBackToForm`: the exercise and the error go; the values
        stay. The exercise view declares no prop for it and no control
        calls it, so the page never runs this handler. */
    method GoBackToForm()
      requires Valid()
      modifies this`exerciseData, this`error
      ensures Valid()
      ensures exerciseData == None && error == None
    {
      exerciseData := None;
      error := None;
    }

    /** The four conditional blocks of the page. */
    function Shown(): (v: View)
      reads this
    {
      View(exerciseData.None? && !isLoading,
           Truthy(error) && !isLoading && exerciseData.None?,
           isLoading,
           exerciseData.Some? && !isLoading)
    }
  }

  /** Exactly one of the form, the loader and the exercise is displayed; an
      error alert only ever appears above the form. */
  lemma ExactlyOneMainPart(p: ExercisesPage)
    requires p.Valid()
    ensures var v := p.Shown();
            && (v.form || v.loader || v.exercise)
            && !(v.form && v.loader) && !(v.form && v.exercise) && !(v.loader && v.exercise)
            && (v.errorAlert ==> v.form)
  {
  }

  /** "Next" from a displayed exercise always starts a new request with the
      values of the exercise shown. */
  method NextFromShownExercise(p: ExercisesPage) returns (request: Option<FillBlankFormValues>)
    requires p.Valid() && p.Shown().exercise
    modifies p
    ensures request.Some? && request == old(p.currentFormValues)
    ensures p.Shown() == View(false, false, true, false)
  {
    request := p.NextExercise();
  }

  /** A failed request brings back the form with its alert, which shows the
      message whenever the message is not empty. */
  method FailedRequestShowsForm(p: ExercisesPage, values: FillBlankFormValues, reply: Reply<Exercise>)
    returns (view: View)
    requires p.Valid() && !p.isLoading && !reply.Returned?
    modifies p
    ensures view.form && !view.loader && !view.exercise
    ensures view.errorAlert <==> FailureMessage(reply) != ""
    ensures p.error == Some(FailureMessage(reply))
  {
    var _ := p.Submit(values);
    p.Settle(reply);
    view := p.Shown();
  }
}
