/** The administrator's "add grade" task module: one text box for the grade
    name, an add button, and one error line. The state fields of the React
    component are the fields of `AddGradeForm`; the server's answer to the
    create request is an argument of the handler that awaits it. */
module AddGrade {
  import opened Wrappers

  /** A grade record as the server returns it. */
  datatype Grade = Grade(id: string, gradeName: string)

  // Localisation keys of the messages the error line can show.
  const EmptyGradeMessage: string := "adminGradeEmptyValidationMessage"
  const GradeExistsMessage: string := "gradeAlreadyExistsValidationMessage"
  const GeneralErrorMessage: string := "generalErrorMessage"

  /** `getErrorMessage`: the error line shows at most one message; a
      missing name comes first, then a name already taken, then any other
      failure. */
  function ErrorMessage(isGradeValuePresent: bool, isGradeTitleExists: bool, showErrorMessage: bool): (message: Option<string>)
    ensures message == Some(EmptyGradeMessage) <==> !isGradeValuePresent
    ensures message == Some(GradeExistsMessage) <==> isGradeValuePresent && isGradeTitleExists
    ensures message == Some(GeneralErrorMessage) <==> isGradeValuePresent && !isGradeTitleExists && showErrorMessage
    ensures message.None? <==> isGradeValuePresent && !isGradeTitleExists && !showErrorMessage
  {
    if !isGradeValuePresent then Some(EmptyGradeMessage)
    else if isGradeTitleExists then Some(GradeExistsMessage)
    else if showErrorMessage then Some(GeneralErrorMessage)
    else None
  }

  class AddGradeForm {
    var grade: string
    var isGradeValuePresent: bool
    var loader: bool
    var isSubmitLoading: bool
    var isGradeTitleExists: bool
    var showErrorMessage: bool

    /** The missing-name error is only ever up while the name is empty. */
    ghost predicate Valid()
      reads this
    {
      isGradeValuePresent || grade == ""
    }

    /** The component's initial state: an empty name and no error. */
    constructor ()
      ensures Valid()
      ensures grade == "" && isGradeValuePresent && !loader && !isSubmitLoading
      ensures !isGradeTitleExists && !showErrorMessage
      ensures Message().None?
    {
      grade, isGradeValuePresent, loader := "", true, false;
      isSubmitLoading, isGradeTitleExists, showErrorMessage := false, false, false;
    }

    /** The message the error line currently shows. */
    function Message(): Option<string>
      reads this
    {
      ErrorMessage(isGradeValuePresent, isGradeTitleExists, showErrorMessage)
    }

    /** `onGradeValueChange`: typing clears the missing-name and name-taken
        errors, so only a pending generic error can still show. */
    method OnGradeValueChange(value: string)
      requires Valid()
      modifies this`grade, this`isGradeValuePresent, this`isGradeTitleExists
      ensures Valid()
      ensures grade == value && isGradeValuePresent && !isGradeTitleExists
      ensures Message() == if showErrorMessage then Some(GeneralErrorMessage) else None
    {
      grade, isGradeValuePresent, isGradeTitleExists := value, true, false;
    }

    /** `checkIfSubmitAllowed`: a request may be sent iff the name is not
        empty; otherwise the missing-name error is raised. */
    method CheckIfSubmitAllowed() returns (allowed: bool)
      requires Valid()
      modifies this`isGradeValuePresent
      ensures Valid()
      ensures allowed <==> grade != ""
      ensures isGradeValuePresent == (allowed && old(isGradeValuePresent))
      ensures !allowed ==> Message() == Some(EmptyGradeMessage)
    {
      if grade != "" {
        return true;
      }
      isGradeValuePresent := false;
      return false;
    }

    /** The synchronous part of `onAddButtonClick`: when submit is allowed,
        the generic error is cleared, the button shows as busy and the name
        is sent (`request`); otherwise nothing is sent. */
    method StartAdd() returns (request: Option<string>)
      requires Valid()
      modifies this`isGradeValuePresent, this`showErrorMessage, this`isSubmitLoading
      ensures Valid()
      ensures request.Some? <==> old(grade) != ""
      ensures request.Some? ==>
        && request.value == grade && isGradeValuePresent == old(isGradeValuePresent)
        && !showErrorMessage && isSubmitLoading
      ensures request.None? ==>
        && !isGradeValuePresent && showErrorMessage == old(showErrorMessage)
        && isSubmitLoading == old(isSubmitLoading)
    {
      var allowed := CheckIfSubmitAllowed();
      if !allowed {
        return None;
      }
      showErrorMessage, isSubmitLoading := false, true;
      request := Some(grade);
    }

    /** The continuation of `onAddButtonClick` once the server answered: a
        200 that carries the new grade goes back to the list; a 409 raises
        the name-taken error; anything else, a 200 without data included,
        raises the generic error. The button is released unless the page
        is left. */
    method FinishAdd(response: Response<Grade>) returns (goBack: bool)
      requires Valid()
      modifies this`isGradeTitleExists, this`isSubmitLoading, this`showErrorMessage
      ensures Valid()
      ensures goBack <==> response.status == StatusOk && response.data.Some?
      ensures goBack ==>
        && isGradeTitleExists == old(isGradeTitleExists) && isSubmitLoading == old(isSubmitLoading)
        && showErrorMessage == old(showErrorMessage)
      ensures !goBack && response.status == StatusConflict ==>
        isGradeTitleExists && !isSubmitLoading && showErrorMessage == old(showErrorMessage)
      ensures !goBack && response.status != StatusConflict ==>
        showErrorMessage && !isSubmitLoading && isGradeTitleExists == old(isGradeTitleExists)
    {
      if response.status == StatusOk && response.data.Some? {
        return true;
      } else if response.status == StatusConflict {
        isGradeTitleExists, isSubmitLoading := true, false;
      } else {
        showErrorMessage, isSubmitLoading := true, false;
      }
      return false;
    }

    /** `onAddButtonClick` as a whole, given the server's answer to the
        request it makes, if it makes one. */
    method OnAddButtonClick(response: Response<Grade>) returns (request: Option<string>, goBack: bool)
      requires Valid()
      modifies this`isGradeValuePresent, this`showErrorMessage, this`isSubmitLoading, this`isGradeTitleExists
      ensures Valid()
      ensures request.Some? <==> grade != ""
      ensures request.Some? ==> request.value == grade
      ensures goBack <==> request.Some? && response.status == StatusOk && response.data.Some?
      // an empty name raises only the missing-name error
      ensures request.None? ==>
        && Message() == Some(EmptyGradeMessage) && !goBack && !isGradeValuePresent
        && isSubmitLoading == old(isSubmitLoading) && showErrorMessage == old(showErrorMessage)
        && isGradeTitleExists == old(isGradeTitleExists)
      // the page is left with the button busy and the generic error cleared
      ensures goBack ==>
        && isSubmitLoading && !showErrorMessage
        && isGradeValuePresent == old(isGradeValuePresent) && isGradeTitleExists == old(isGradeTitleExists)
      ensures request.Some? && !goBack && response.status == StatusConflict ==>
        && !isSubmitLoading && isGradeTitleExists && !showErrorMessage
        && isGradeValuePresent == old(isGradeValuePresent) && Message() == Some(GradeExistsMessage)
      ensures request.Some? && !goBack && response.status != StatusConflict ==>
        && !isSubmitLoading && showErrorMessage
        && isGradeValuePresent == old(isGradeValuePresent) && isGradeTitleExists == old(isGradeTitleExists)
    {
      request := StartAdd();
      goBack := false;
      if request.Some? {
        goBack := FinishAdd(response);
      }
    }
  }
}
