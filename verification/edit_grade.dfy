/** The administrator's "edit grade" task module: the grade named by the
    query string is loaded into a text box, and the update button sends the
    edited name. The state fields of the React component are the fields of
    `EditGradeForm`; the server's answers are arguments of the handlers that
    await them. */
module EditGrade {
  import opened Wrappers
  import AddGrade

  type Grade = AddGrade.Grade

  // Localisation keys of the messages the error line can show.
  const GradeExistsMessage: string := "gradeAlreadyExistsValidationMessage"
  const GeneralErrorMessage: string := "generalErrorMessage"

  /** `getErrorMessage(isGradeValuePresent, showGenericErrorMessage)`: a true
      first argument selects the name-taken message, otherwise a true second
      argument selects the generic one; with both false nothing shows. */
  function GetErrorMessage(isGradeValuePresent: bool, showGenericErrorMessage: bool): (message: Option<string>)
    ensures message == Some(GradeExistsMessage) <==> isGradeValuePresent
    ensures message == Some(GeneralErrorMessage) <==> !isGradeValuePresent && showGenericErrorMessage
    ensures message.None? <==> !isGradeValuePresent && !showGenericErrorMessage
  {
    if isGradeValuePresent then Some(GradeExistsMessage)
    else if showGenericErrorMessage then Some(GeneralErrorMessage)
    else None
  }

  class EditGradeForm {
    // the query-string id of the grade being edited ("" when absent)
    const id: string

    var loader: bool
    var gradeName: string
    var isGradeValuePresent: bool
    var isSubmitLoading: bool
    var isGradeTitleExists: bool
    var errorMessage: bool

    /** The component's initial state: loading, with an empty name. */
    constructor (id: string)
      ensures this.id == id && loader && gradeName == "" && isGradeValuePresent
      ensures !isSubmitLoading && !isGradeTitleExists && !errorMessage
    {
      this.id := id;
      loader, gradeName, isGradeValuePresent := true, "", true;
      isSubmitLoading, isGradeTitleExists, errorMessage := false, false, false;
    }

    /** `getGrade`: the loader goes away whatever the answer; the name is
        filled in only from a 200 that carries the grade. */
    method GetGrade(response: Response<Grade>)
      modifies this`gradeName, this`loader
      ensures !loader
      ensures gradeName == if response.status == StatusOk && response.data.Some?
                           then response.data.value.gradeName else old(gradeName)
    {
      if response.status == StatusOk && response.data.Some? {
        gradeName, loader := response.data.value.gradeName, false;
      } else {
        loader := false;
      }
    }

    /** `onGradeValueChange`: typing clears the missing-name and name-taken
        flags. */
    method OnGradeValueChange(value: string)
      modifies this`gradeName, this`isGradeValuePresent, this`isGradeTitleExists
      ensures gradeName == value && isGradeValuePresent && !isGradeTitleExists
    {
      gradeName, isGradeValuePresent, isGradeTitleExists := value, true, false;
    }

    /** `checkIfSubmitAllowed`: an update may be sent iff the name is not
        empty; otherwise the missing-name flag is raised. */
    method CheckIfSubmitAllowed() returns (allowed: bool)
      modifies this`isGradeValuePresent
      ensures allowed <==> gradeName != ""
      ensures isGradeValuePresent == (allowed && old(isGradeValuePresent))
    {
      if gradeName != "" {
        return true;
      }
      isGradeValuePresent := false;
      return false;
    }

    /** The synchronous part of `onUpdateButtonClick`: when submit is
        allowed, the generic error is cleared, the button shows as busy and
        the grade (query-string id, current name) is sent; otherwise nothing
        is sent. */
    method StartUpdate() returns (request: Option<Grade>)
      modifies this`isGradeValuePresent, this`errorMessage, this`isSubmitLoading
      ensures request.Some? <==> gradeName != ""
      ensures request.Some? ==>
        && request.value == AddGrade.Grade(id, gradeName)
        && isGradeValuePresent == old(isGradeValuePresent) && !errorMessage && isSubmitLoading
      ensures request.None? ==>
        !isGradeValuePresent && errorMessage == old(errorMessage) && isSubmitLoading == old(isSubmitLoading)
    {
      var allowed := CheckIfSubmitAllowed();
      if !allowed {
        return None;
      }
      errorMessage, isSubmitLoading := false, true;
      request := Some(AddGrade.Grade(id, gradeName));
    }

    /** The continuation of `onUpdateButtonClick` once the server answered:
        any 200 goes back to the list, with or without data; a 409 raises
        the name-taken flag; anything else raises the generic error. The
        button is released unless the page is left. */
    method FinishUpdate(status: int) returns (goBack: bool)
      modifies this`isGradeTitleExists, this`isSubmitLoading, this`errorMessage
      ensures goBack <==> status == StatusOk
      ensures goBack ==>
        && isGradeTitleExists == old(isGradeTitleExists) && isSubmitLoading == old(isSubmitLoading)
        && errorMessage == old(errorMessage)
      ensures status == StatusConflict ==>
        isGradeTitleExists && !isSubmitLoading && errorMessage == old(errorMessage)
      ensures !goBack && status != StatusConflict ==>
        errorMessage && !isSubmitLoading && isGradeTitleExists == old(isGradeTitleExists)
    {
      if status == StatusOk {
        return true;
      } else if status == StatusConflict {
        isGradeTitleExists, isSubmitLoading := true, false;
      } else {
        errorMessage, isSubmitLoading := true, false;
      }
      return false;
    }

    /** `onUpdateButtonClick` as a whole, given the status of the server's
        answer to the request it makes, if it makes one. */
    method OnUpdateButtonClick(status: int) returns (request: Option<Grade>, goBack: bool)
      modifies this`isGradeValuePresent, this`errorMessage, this`isSubmitLoading, this`isGradeTitleExists
      ensures request.Some? <==> gradeName != ""
      ensures request.Some? ==> request.value == AddGrade.Grade(id, gradeName)
      ensures goBack <==> request.Some? && status == StatusOk
      // an empty name raises only the missing-name flag
      ensures request.None? ==>
        && !isGradeValuePresent && isGradeTitleExists == old(isGradeTitleExists)
        && isSubmitLoading == old(isSubmitLoading) && errorMessage == old(errorMessage)
      // the page is left with the button busy and the generic error cleared
      ensures goBack ==>
        && isSubmitLoading && !errorMessage
        && isGradeValuePresent == old(isGradeValuePresent) && isGradeTitleExists == old(isGradeTitleExists)
      ensures request.Some? && status == StatusConflict ==>
        && isGradeTitleExists && !isSubmitLoading && !errorMessage && isGradeValuePresent == old(isGradeValuePresent)
      ensures request.Some? && !goBack && status != StatusConflict ==>
        && errorMessage && !isSubmitLoading
        && isGradeValuePresent == old(isGradeValuePresent) && isGradeTitleExists == old(isGradeTitleExists)
    {
      request := StartUpdate();
      goBack := false;
      if request.Some? {
        goBack := FinishUpdate(status);
      }
    }

    /** The error line as the page renders it: `getErrorMessage` called
        with a constant false first argument, so it shows the generic
        message iff the generic flag is up, and never the name-taken one. */
    function RenderedError(): (message: Option<string>)
      reads this
      ensures message != Some(GradeExistsMessage)
      ensures message == Some(GeneralErrorMessage) <==> errorMessage
      ensures message.None? <==> !errorMessage
    {
      GetErrorMessage(false, errorMessage)
    }

    /** The error line with the name-taken flag passed as the first
        argument: the name-taken message shows iff the server reported the
        name as taken and nobody typed since; otherwise the generic one iff
        its flag is up. */
    function IntendedError(): (message: Option<string>)
      reads this
      ensures message == Some(GradeExistsMessage) <==> isGradeTitleExists
      ensures message == Some(GeneralErrorMessage) <==> !isGradeTitleExists && errorMessage
    {
      GetErrorMessage(isGradeTitleExists, errorMessage)
    }
  }

  /** A rename rejected by the server as a duplicate leaves the rendered
      error line empty, while the name-taken message is what the flags
      call for. */
  method DuplicateRenameScenario() returns (rendered: Option<string>, intended: Option<string>)
    ensures rendered.None?
    ensures intended == Some(GradeExistsMessage)
  {
    var form := new EditGradeForm("grade-1");
    form.GetGrade(Response(StatusOk, Some(AddGrade.Grade("grade-1", "Grade 5"))));
    form.OnGradeValueChange("Grade 6");
    var request, goBack := form.OnUpdateButtonClick(StatusConflict);
    rendered, intended := form.RenderedError(), form.IntendedError();
  }
}
