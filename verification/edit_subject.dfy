/** The administrator's "edit subject" task module: the subject named by the
    query string is loaded into a text box, and the update button sends the
    edited name. The state fields of the React component are the fields of
    `EditSubjectForm`; the server's answers are arguments of the handlers that
    await them. */
module EditSubject {
  import opened Wrappers

  /** A subject record as the server returns it. */
  datatype Subject = Subject(id: string, subjectName: string)

  // Localisation keys of the messages the error line can show.
  const SubjectExistsMessage: string := "subjectAlreadyExistsValidationMessage"
  const GeneralErrorMessage: string := "generalErrorMessage"

  /** `getErrorMessage(isSubjectTitleExists, showGenericErrorMessage)`: a true
      first argument selects the name-taken message, otherwise a true second
      argument selects the generic one; with both false nothing shows. */
  function GetErrorMessage(isSubjectTitleExists: bool, showGenericErrorMessage: bool): (message: Option<string>)
    ensures message == Some(SubjectExistsMessage) <==> isSubjectTitleExists
    ensures message == Some(GeneralErrorMessage) <==> !isSubjectTitleExists && showGenericErrorMessage
    ensures message.None? <==> !isSubjectTitleExists && !showGenericErrorMessage
  {
    if isSubjectTitleExists then Some(SubjectExistsMessage)
    else if showGenericErrorMessage then Some(GeneralErrorMessage)
    else None
  }

  class EditSubjectForm {
    // the query-string id of the subject being edited ("" when absent)
    const id: string

    var loader: bool
    var subjectName: string
    var isSubjectValuePresent: bool
    var isSubmitLoading: bool
    var isSubjectTitleExists: bool
    var showErrorMessage: bool

    /** The component's initial state: loading, with an empty name. */
    constructor (id: string)
      ensures this.id == id && loader && subjectName == "" && isSubjectValuePresent
      ensures !isSubmitLoading && !isSubjectTitleExists && !showErrorMessage
    {
      this.id := id;
      loader, subjectName, isSubjectValuePresent := true, "", true;
      isSubmitLoading, isSubjectTitleExists, showErrorMessage := false, false, false;
    }

    /** `getSubject`: the loader goes away whatever the answer; the name is
        filled in only from a 200 that carries the subject. */
    method GetSubject(response: Response<Subject>)
      modifies this`subjectName, this`loader
      ensures !loader
      ensures subjectName == if response.status == StatusOk && response.data.Some?
                           then response.data.value.subjectName else old(subjectName)
    {
      if response.status == StatusOk && response.data.Some? {
        subjectName, loader := response.data.value.subjectName, false;
      } else {
        loader := false;
      }
    }

    /** `onSubjectValueChange`: typing clears the missing-name and name-taken
        flags. */
    method OnSubjectValueChange(value: string)
      modifies this`subjectName, this`isSubjectValuePresent, this`isSubjectTitleExists
      ensures subjectName == value && isSubjectValuePresent && !isSubjectTitleExists
    {
      subjectName, isSubjectValuePresent, isSubjectTitleExists := value, true, false;
    }

    /** `checkIfSubmitAllowed`: an update may be sent iff the name is not
        empty; otherwise the missing-name flag is raised. */
    method CheckIfSubmitAllowed() returns (allowed: bool)
      modifies this`isSubjectValuePresent
      ensures allowed <==> subjectName != ""
      ensures isSubjectValuePresent == (allowed && old(isSubjectValuePresent))
    {
      if subjectName != "" {
        return true;
      }
      isSubjectValuePresent := false;
      return false;
    }

    /** The synchronous part of `onUpdateButtonClick`: when submit is
        allowed, the generic error is cleared, the button shows as busy and
        the subject (query-string id, current name) is sent; otherwise nothing
        is sent. */
    method StartUpdate() returns (request: Option<Subject>)
      modifies this`isSubjectValuePresent, this`showErrorMessage, this`isSubmitLoading
      ensures request.Some? <==> subjectName != ""
      ensures request.Some? ==>
        && request.value == Subject(id, subjectName)
        && isSubjectValuePresent == old(isSubjectValuePresent) && !showErrorMessage && isSubmitLoading
      ensures request.None? ==>
        !isSubjectValuePresent && showErrorMessage == old(showErrorMessage) && isSubmitLoading == old(isSubmitLoading)
    {
      var allowed := CheckIfSubmitAllowed();
      if !allowed {
        return None;
      }
      showErrorMessage, isSubmitLoading := false, true;
      request := Some(Subject(id, subjectName));
    }

    /** The continuation of `onUpdateButtonClick` once the server answered:
        any 200 goes back to the list, with or without data; a 409 raises
        the name-taken flag; anything else raises the generic error. The
        button is released unless the page is left. */
    method FinishUpdate(status: int) returns (goBack: bool)
      modifies this`isSubjectTitleExists, this`isSubmitLoading, this`showErrorMessage
      ensures goBack <==> status == StatusOk
      ensures goBack ==>
        && isSubjectTitleExists == old(isSubjectTitleExists) && isSubmitLoading == old(isSubmitLoading)
        && showErrorMessage == old(showErrorMessage)
      ensures status == StatusConflict ==>
        isSubjectTitleExists && !isSubmitLoading && showErrorMessage == old(showErrorMessage)
      ensures !goBack && status != StatusConflict ==>
        showErrorMessage && !isSubmitLoading && isSubjectTitleExists == old(isSubjectTitleExists)
    {
      if status == StatusOk {
        return true;
      } else if status == StatusConflict {
        isSubjectTitleExists, isSubmitLoading := true, false;
      } else {
        showErrorMessage, isSubmitLoading := true, false;
      }
      return false;
    }

    /** `onUpdateButtonClick` as a whole, given the status of the server's
        answer to the request it makes, if it makes one. */
    method OnUpdateButtonClick(status: int) returns (request: Option<Subject>, goBack: bool)
      modifies this`isSubjectValuePresent, this`showErrorMessage, this`isSubmitLoading, this`isSubjectTitleExists
      ensures request.Some? <==> subjectName != ""
      ensures request.Some? ==> request.value == Subject(id, subjectName)
      ensures goBack <==> request.Some? && status == StatusOk
      // an empty name raises only the missing-name flag
      ensures request.None? ==>
        && !isSubjectValuePresent && isSubjectTitleExists == old(isSubjectTitleExists)
        && isSubmitLoading == old(isSubmitLoading) && showErrorMessage == old(showErrorMessage)
      // the page is left with the button busy and the generic error cleared
      ensures goBack ==>
        && isSubmitLoading && !showErrorMessage
        && isSubjectValuePresent == old(isSubjectValuePresent) && isSubjectTitleExists == old(isSubjectTitleExists)
      ensures request.Some? && status == StatusConflict ==>
        && isSubjectTitleExists && !isSubmitLoading && !showErrorMessage && isSubjectValuePresent == old(isSubjectValuePresent)
      ensures request.Some? && !goBack && status != StatusConflict ==>
        && showErrorMessage && !isSubmitLoading
        && isSubjectValuePresent == old(isSubjectValuePresent) && isSubjectTitleExists == old(isSubjectTitleExists)
    {
      request := StartUpdate();
      goBack := false;
      if request.Some? {
        goBack := FinishUpdate(status);
      }
    }

    /** The error line as the page renders it: `getErrorMessage` called
        with a constant false first argument, so it shows the generic
        message iff the generic flag is up, and never the name-taken one. */
    function RenderedError(): (message: Option<string>)
      reads this
      ensures message != Some(SubjectExistsMessage)
      ensures message == Some(GeneralErrorMessage) <==> showErrorMessage
      ensures message.None? <==> !showErrorMessage
    {
      GetErrorMessage(false, showErrorMessage)
    }

    /** The error line with the name-taken flag passed as the first
        argument: the name-taken message shows iff the server reported the
        name as taken and nobody typed since; otherwise the generic one iff
        its flag is up. */
    function IntendedError(): (message: Option<string>)
      reads this
      ensures message == Some(SubjectExistsMessage) <==> isSubjectTitleExists
      ensures message == Some(GeneralErrorMessage) <==> !isSubjectTitleExists && showErrorMessage
    {
      GetErrorMessage(isSubjectTitleExists, showErrorMessage)
    }
  }

  /** A rename rejected by the server as a duplicate leaves the rendered
      error line empty, while the name-taken message is what the flags
      call for. */
  method DuplicateRenameScenario() returns (rendered: Option<string>, intended: Option<string>)
    ensures rendered.None?
    ensures intended == Some(SubjectExistsMessage)
  {
    var form := new EditSubjectForm("subject-1");
    form.GetSubject(Response(StatusOk, Some(Subject("subject-1", "Physics"))));
    form.OnSubjectValueChange("Chemistry");
    var request, goBack := form.OnUpdateButtonClick(StatusConflict);
    rendered, intended := form.RenderedError(), form.IntendedError();
  }
}
