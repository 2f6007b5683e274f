/** The resource authoring form: a task module in which a teacher enters a
    resource (title, description, type, attachment or link, grade, subject,
    tags), then picks a preview image, then reviews it. The state fields of
    the React component are the fields of `ResourceContentForm`; each event
    handler is one atomic update of them, and each awaited server answer is
    an argument. */
module ResourceContent {
  import opened Wrappers
  import opened Text
  import opened Authoring

  // File extensions of the client file control, without a leading dot.
  const XLSX: string := "xlsx"
  const XLS: string := "xls"
  const DOCX: string := "docx"
  const DOC: string := "doc"
  const PPT: string := "ppt"
  const PPTX: string := "pptx"
  const PDF: string := "pdf"

  // Values of `resourceType`; 0 stands for "not chosen yet".
  const NoType: int := 0
  const SlideType: int := 1
  const SpreadsheetType: int := 2
  const DocumentType: int := 3
  const PdfType: int := 4
  const LinkType: int := 5

  /** The known extensions and the resource type each one demands. */
  const ExtensionTypes: map<string, int> := map[
    PPTX := SlideType, PPT := SlideType,
    XLSX := SpreadsheetType, XLS := SpreadsheetType,
    DOCX := DocumentType, DOC := DocumentType,
    PDF := PdfType]

  /** The one resource type an attachment state admits: an external link
      when there is no file but a link, otherwise the type listed for the
      lower-cased extension, and an external link for any other extension. */
  function RequiredResourceType(fileExtension: string, linkUrl: string): (t: int)
    ensures SlideType <= t <= LinkType
  {
    if fileExtension == "" && linkUrl != "" then LinkType
    else
      var ext := AsciiLower(fileExtension);
      if ext in ExtensionTypes then ExtensionTypes[ext] else LinkType
  }

  /** `validateResourceType`: the switch on the lower-cased extension.
      Exactly one type is accepted for every attachment state. */
  function ValidateResourceType(fileExtension: string, linkUrl: string, resourceType: int): (valid: bool)
    ensures valid <==> resourceType == RequiredResourceType(fileExtension, linkUrl)
    ensures valid ==> SlideType <= resourceType <= LinkType
  {
    if fileExtension == "" && linkUrl != "" then resourceType == LinkType
    else
      var ext := AsciiLower(fileExtension);
      if ext == PPTX || ext == PPT then resourceType == SlideType
      else if ext == XLSX || ext == XLS then resourceType == SpreadsheetType
      else if ext == DOC || ext == DOCX then resourceType == DocumentType
      else if ext == PDF then resourceType == PdfType
      else resourceType == LinkType
  }

  /** The letter case of the extension does not matter. */
  lemma ExtensionCaseIgnored(fileExtension: string, linkUrl: string, resourceType: int)
    ensures ValidateResourceType(fileExtension, linkUrl, resourceType)
            == ValidateResourceType(AsciiLower(fileExtension), linkUrl, resourceType)
  {
    AsciiLowerIdempotent(fileExtension);
  }

  /** The fields of a resource the form edits. Strings are "" where the
      record's field is empty, null or undefined. */
  datatype ResourceDetail = ResourceDetail(
    id: string, title: string, description: string, resourceType: int,
    linkUrl: string, attachmentUrl: string, imageUrl: string,
    gradeId: string, subjectId: string)

  const EmptyResource: ResourceDetail := ResourceDetail("", "", "", NoType, "", "", "", "", "")

  /** The validation flags `checkIfSubmitAllowed` computes. */
  datatype ContentValidation = ContentValidation(
    isTitlePresent: bool, isTitleValid: bool,
    isTypeOfResourcePresent: bool, isTypeOfResourceValid: bool,
    isDescriptionValid: bool, isSubjectValid: bool, isAttachmentValid: bool,
    isGradeValid: bool, isLinkValid: bool)
  {
    predicate SubmitAllowed() {
      && isGradeValid && isSubjectValid && isDescriptionValid && isTitlePresent
      && isAttachmentValid && isLinkValid && isTitleValid
      && isTypeOfResourceValid && isTypeOfResourcePresent
    }
  }

  /** The flags of a freshly opened form: no error is shown. */
  const AllValid: ContentValidation := ContentValidation(true, true, true, true, true, true, true, true, true)

  /** The checks of `checkIfSubmitAllowed` over the current resource, the
      attached file name and extension, the title verdict and the URL
      pattern test. An undefined title verdict counts as invalid, since the
      form only ever tests the flag for falsity. */
  function ValidateContent(detail: ResourceDetail, fileName: string, fileExtension: string,
                           titleValid: Option<bool>, matchesUrlPattern: string -> bool): ContentValidation
  {
    ContentValidation(
      isTitlePresent := !IsNullOrWhiteSpace(detail.title),
      isTitleValid := titleValid == Some(true),
      isTypeOfResourcePresent := detail.resourceType != NoType,
      // the later re-check for an uploaded file only ever sets false on a
      // flag that is already false
      isTypeOfResourceValid := ValidateResourceType(fileExtension, detail.linkUrl, detail.resourceType),
      isDescriptionValid := !IsNullOrWhiteSpace(detail.description),
      isSubjectValid := detail.subjectId != "",
      isAttachmentValid := !(IsNullOrWhiteSpace(detail.linkUrl) && IsNullOrWhiteSpace(fileName)),
      isGradeValid := detail.gradeId != "",
      isLinkValid := !(detail.linkUrl != "" && !matchesUrlPattern(detail.linkUrl)))
  }

  /** Submit is allowed iff the title is present and free, the type agrees
      with the attachment (and so is chosen), the description is not blank,
      grade and subject are set, there is a link or a file, and a link, if
      any, matches the URL pattern. */
  lemma SubmitAllowedIff(detail: ResourceDetail, fileName: string, fileExtension: string,
                         titleValid: Option<bool>, matchesUrlPattern: string -> bool)
    ensures ValidateContent(detail, fileName, fileExtension, titleValid, matchesUrlPattern).SubmitAllowed() <==>
      && !IsNullOrWhiteSpace(detail.title) && titleValid == Some(true)
      && detail.resourceType == RequiredResourceType(fileExtension, detail.linkUrl)
      && !IsNullOrWhiteSpace(detail.description)
      && detail.subjectId != "" && detail.gradeId != ""
      && (!IsNullOrWhiteSpace(detail.linkUrl) || !IsNullOrWhiteSpace(fileName))
      && (detail.linkUrl != "" ==> matchesUrlPattern(detail.linkUrl))
  {
  }

  /** A resource submitted without a file is an external link, and its link
      matches the URL pattern. */
  lemma LinkOnlyResourceIsExternalLink(detail: ResourceDetail, fileName: string, fileExtension: string,
                                       titleValid: Option<bool>, matchesUrlPattern: string -> bool)
    requires ValidateContent(detail, fileName, fileExtension, titleValid, matchesUrlPattern).SubmitAllowed()
    requires fileExtension == "" && IsNullOrWhiteSpace(fileName)
    ensures detail.resourceType == LinkType
    ensures detail.linkUrl != "" && matchesUrlPattern(detail.linkUrl)
  {
    SubmitAllowedIff(detail, fileName, fileExtension, titleValid, matchesUrlPattern);
    assert detail.linkUrl != "" by {
      assert IsNullOrWhiteSpace("");
    }
  }

  class ResourceContentForm {
    // query-string id of the resource being edited ("" when adding)
    const resourceId: string
    // Resources.tagsMaxCount
    const tagsMaxCount: nat
    // Constants.urlValidationRegEx, as a test on a string
    const matchesUrlPattern: string -> bool

    var isEditMode: bool
    var resourceDetail: ResourceDetail
    var grade: string
    var subject: string
    // the nine validation flags of the component state, kept together
    var validation: ContentValidation
    var resourceTag: seq<string>
    var isTagsCountValid: bool
    var selectedTags: seq<DropDownItem>
    var fileName: string
    var fileExtension: string
    var showAttachment: bool
    var isSaveButtonLoading: bool
    var isSaveButtonDisabled: bool
    var isImageNextBtnDisabled: bool
    var error: string
    var isFileValid: bool
    var isFileFormatValid: bool
    var isContentPage: bool
    var isImagePage: bool
    var isPreviewPage: bool
    var isUploadDisable: bool

    /** One page shows at a time, and the tag list is the selection's ids
        and never longer than the cap. */
    ghost predicate Valid()
      reads this
    {
      && ExactlyOnePage(isContentPage, isImagePage, isPreviewPage)
      && |selectedTags| <= tagsMaxCount
      && resourceTag == TagKeys(selectedTags)
    }

    /** The component's initial state; `isEditMode` is the mode read from
        the query string once the Teams context is available. */
    constructor (resourceId: string, isEditMode: bool, tagsMaxCount: nat, matchesUrlPattern: string -> bool)
      ensures Valid()
      ensures this.resourceId == resourceId && this.isEditMode == isEditMode
      ensures this.tagsMaxCount == tagsMaxCount && this.matchesUrlPattern == matchesUrlPattern
      ensures resourceDetail == EmptyResource && grade == "" && subject == ""
      ensures validation == AllValid
      ensures resourceTag == [] && isTagsCountValid && selectedTags == []
      ensures fileName == "" && fileExtension == "" && !showAttachment
      ensures !isSaveButtonLoading && !isSaveButtonDisabled && isImageNextBtnDisabled && error == ""
      ensures isFileValid && isFileFormatValid && !isUploadDisable
      ensures isContentPage && !isImagePage && !isPreviewPage
    {
      this.resourceId := resourceId;
      this.tagsMaxCount := tagsMaxCount;
      this.matchesUrlPattern := matchesUrlPattern;
      this.isEditMode := isEditMode;
      resourceDetail := EmptyResource;
      grade, subject := "", "";
      validation := AllValid;
      resourceTag, isTagsCountValid, selectedTags := [], true, [];
      fileName, fileExtension, showAttachment := "", "", false;
      isSaveButtonLoading, isSaveButtonDisabled, isImageNextBtnDisabled := false, false, true;
      error := "";
      isFileValid, isFileFormatValid := true, true;
      isContentPage, isImagePage, isPreviewPage := true, false, false;
      isUploadDisable := false;
    }

    /** `handleTypeOfResourceChange`: choosing "external link" disables the
        upload and hides the attachment; any other type re-enables upload. */
    method HandleTypeOfResourceChange(resourceType: int)
      requires Valid()
      modifies this`isUploadDisable, this`resourceDetail, this`validation, this`showAttachment
      ensures Valid()
      ensures resourceDetail == old(resourceDetail).(resourceType := resourceType)
      ensures validation == old(validation).(isTypeOfResourceValid := true, isTypeOfResourcePresent := true)
      ensures isUploadDisable <==> resourceType == LinkType
      ensures showAttachment == (resourceType != LinkType && old(showAttachment))
    {
      isUploadDisable := false;
      var detail := resourceDetail.(resourceType := resourceType);
      if detail.resourceType == LinkType {
        isUploadDisable, resourceDetail := true, detail;
        validation := validation.(isTypeOfResourceValid := true, isTypeOfResourcePresent := true);
        showAttachment := false;
        return;
      }
      resourceDetail := detail;
      validation := validation.(isTypeOfResourceValid := true, isTypeOfResourcePresent := true);
    }

    /** `handleGradeChange`: the grade id and the grade name shown come from
        the same drop-down item; nothing happens when no item is given. */
    method HandleGradeChange(selected: Option<DropDownItem>)
      requires Valid()
      modifies this`resourceDetail, this`grade, this`validation, this`error
      ensures Valid()
      ensures selected.None? ==> resourceDetail == old(resourceDetail) && grade == old(grade)
                                 && validation == old(validation) && error == old(error)
      ensures selected.Some? ==>
        && resourceDetail == old(resourceDetail).(gradeId := selected.value.key)
        && grade == selected.value.header && error == ""
        && validation == old(validation).(isGradeValid := true)
    {
      if selected.Some? {
        resourceDetail := resourceDetail.(gradeId := selected.value.key);
        grade, error := selected.value.header, "";
        validation := validation.(isGradeValid := true);
      }
    }

    /** `handleSubjectChange`, the same for the subject. */
    method HandleSubjectChange(selected: Option<DropDownItem>)
      requires Valid()
      modifies this`resourceDetail, this`subject, this`validation, this`error
      ensures Valid()
      ensures selected.None? ==> resourceDetail == old(resourceDetail) && subject == old(subject)
                                 && validation == old(validation) && error == old(error)
      ensures selected.Some? ==>
        && resourceDetail == old(resourceDetail).(subjectId := selected.value.key)
        && subject == selected.value.header && error == ""
        && validation == old(validation).(isSubjectValid := true)
    {
      if selected.Some? {
        resourceDetail := resourceDetail.(subjectId := selected.value.key);
        subject, error := selected.value.header, "";
        validation := validation.(isSubjectValid := true);
      }
    }

    /** `handleTagChange`: a selection over the cap only marks the count
        invalid and keeps the previous tags; otherwise the tags become the
        selected keys, in selection order. */
    method HandleTagChange(tags: seq<DropDownItem>)
      requires Valid()
      modifies this`isTagsCountValid, this`selectedTags, this`resourceTag
      ensures Valid()
      ensures |tags| > tagsMaxCount ==>
        !isTagsCountValid && selectedTags == old(selectedTags) && resourceTag == old(resourceTag)
      ensures |tags| <= tagsMaxCount ==>
        isTagsCountValid && selectedTags == tags && resourceTag == TagKeys(tags)
    {
      if |tags| > tagsMaxCount {
        isTagsCountValid := false;
        return;
      }
      selectedTags := tags;
      resourceTag := TagKeys(tags);
      isTagsCountValid := true;
    }

    /** `handleTitleChange`: editing the title clears its error flags. */
    method HandleTitleChange(title: string)
      requires Valid()
      modifies this`resourceDetail, this`validation, this`error
      ensures Valid()
      ensures resourceDetail == old(resourceDetail).(title := title)
      ensures validation == old(validation).(isTitleValid := true, isTitlePresent := true)
      ensures error == ""
    {
      resourceDetail := resourceDetail.(title := title);
      validation := validation.(isTitleValid := true, isTitlePresent := true);
      error := "";
    }

    /** `handleDescriptionChange`. */
    method HandleDescriptionChange(description: string)
      requires Valid()
      modifies this`resourceDetail, this`validation, this`error
      ensures Valid()
      ensures resourceDetail == old(resourceDetail).(description := description)
      ensures validation == old(validation).(isDescriptionValid := true) && error == ""
    {
      resourceDetail := resourceDetail.(description := description);
      validation := validation.(isDescriptionValid := true);
      error := "";
    }

    /** `handleLinkChange`: clearing the link re-enables upload; a non-empty
        link clears the link and attachment errors. */
    method HandleLinkChange(linkUrl: string)
      requires Valid()
      modifies this`resourceDetail, this`isUploadDisable, this`validation, this`error
      ensures Valid()
      ensures resourceDetail == old(resourceDetail).(linkUrl := linkUrl)
      ensures linkUrl == "" ==>
        !isUploadDisable && validation == old(validation) && error == old(error)
      ensures linkUrl != "" ==>
        && isUploadDisable == old(isUploadDisable) && error == ""
        && validation == old(validation).(isLinkValid := true, isAttachmentValid := true)
    {
      var detail := resourceDetail.(linkUrl := linkUrl);
      if detail.linkUrl == "" {
        isUploadDisable, resourceDetail := false, detail;
        return;
      }
      resourceDetail, error := detail, "";
      validation := validation.(isLinkValid := true, isAttachmentValid := true);
    }

    /** `handleImageClick`: picking an image enables the image page's
        next button. */
    method HandleImageClick(url: string)
      requires Valid()
      modifies this`resourceDetail, this`isImageNextBtnDisabled
      ensures Valid()
      ensures resourceDetail == old(resourceDetail).(imageUrl := url)
      ensures !isImageNextBtnDisabled
    {
      resourceDetail := resourceDetail.(imageUrl := url);
      isImageNextBtnDisabled := false;
    }

    /** `setFileUploadError`. */
    method SetFileUploadError(fileValid: bool)
      requires Valid()
      modifies this`isFileValid, this`validation
      ensures Valid()
      ensures isFileValid == fileValid && validation == old(validation).(isAttachmentValid := true)
    {
      isFileValid := fileValid;
      validation := validation.(isAttachmentValid := true);
    }

    /** `setFileFormatError`. */
    method SetFileFormatError(fileFormatValid: bool)
      requires Valid()
      modifies this`isFileFormatValid
      ensures Valid()
      ensures isFileFormatValid == fileFormatValid
    {
      isFileFormatValid := fileFormatValid;
    }

    /** `getFileName`: shows the attachment of a stored path; the name and
        extension are what the path helpers return for that path. */
    method ShowStoredAttachment(name: string, extension: string)
      requires Valid()
      modifies this`fileName, this`showAttachment, this`fileExtension
      ensures Valid()
      ensures fileName == name && fileExtension == extension && showAttachment
    {
      fileName, showAttachment, fileExtension := name, true, extension;
    }

    /** `setUploadedFileInformation`: a newly chosen file is shown and its
        size and format errors are cleared. */
    method SetUploadedFileInformation(name: string, extension: string)
      requires Valid()
      modifies this`showAttachment, this`isFileFormatValid, this`isFileValid,
               this`fileName, this`fileExtension
      ensures Valid()
      ensures showAttachment && isFileFormatValid && isFileValid
      ensures fileName == name && fileExtension == extension
    {
      showAttachment, isFileFormatValid, isFileValid := true, true, true;
      fileName, fileExtension := name, extension;
    }

    /** `removeFileAttachment`: hides the attachment and forgets its name
        and extension. */
    method RemoveFileAttachment()
      requires Valid()
      modifies this`showAttachment, this`fileName, this`fileExtension
      ensures Valid()
      ensures !showAttachment && fileName == "" && fileExtension == ""
    {
      showAttachment, fileName, fileExtension := false, "", "";
    }

    /** The checks of `checkIfSubmitAllowed` on the current state, given the
        server's list of records that carry the same title. */
    function Verdict(sameTitled: Response<seq<string>>): ContentValidation
      reads this
    {
      ValidateContent(resourceDetail, fileName, fileExtension,
                      TitleCheck(resourceDetail.title, isEditMode, resourceId, sameTitled),
                      matchesUrlPattern)
    }

    /** `checkIfSubmitAllowed`: stores every validation flag and returns
        whether all of them hold; the save button shows as busy. */
    method CheckIfSubmitAllowed(sameTitled: Response<seq<string>>) returns (allowed: bool)
      requires Valid()
      modifies this`isSaveButtonLoading, this`isSaveButtonDisabled, this`validation
      ensures Valid()
      ensures validation == old(Verdict(sameTitled))
      ensures allowed == validation.SubmitAllowed()
      ensures isSaveButtonLoading && isSaveButtonDisabled
    {
      isSaveButtonLoading, isSaveButtonDisabled := true, true;
      validation := Verdict(sameTitled);
      allowed := validation.SubmitAllowed();
    }

    /** `handleContentNextButtonClick`: moves to the image page exactly when
        submit is allowed. */
    method HandleContentNextButtonClick(sameTitled: Response<seq<string>>)
      requires Valid()
      modifies this`isSaveButtonLoading, this`isSaveButtonDisabled, this`validation,
               this`isContentPage, this`isImagePage, this`isPreviewPage
      ensures Valid()
      ensures validation == old(Verdict(sameTitled))
      ensures isSaveButtonLoading && isSaveButtonDisabled
      ensures validation.SubmitAllowed() ==> !isContentPage && isImagePage && !isPreviewPage
      ensures !validation.SubmitAllowed() ==>
        isContentPage == old(isContentPage) && isImagePage == old(isImagePage) && isPreviewPage == old(isPreviewPage)
    {
      var allowed := CheckIfSubmitAllowed(sameTitled);
      if allowed {
        isContentPage, isImagePage, isPreviewPage := false, true, false;
      }
    }

    /** `handleImageNextButtonClick`: moves to the preview only once an
        image has been picked; otherwise the next button is disabled. */
    method HandleImageNextButtonClick()
      requires Valid()
      modifies this`isContentPage, this`isImagePage, this`isPreviewPage, this`isImageNextBtnDisabled
      ensures Valid()
      ensures old(resourceDetail.imageUrl) != "" ==>
        !isContentPage && !isImagePage && isPreviewPage && !isImageNextBtnDisabled
      ensures old(resourceDetail.imageUrl) == "" ==>
        && isImageNextBtnDisabled && isContentPage == old(isContentPage)
        && isImagePage == old(isImagePage) && isPreviewPage == old(isPreviewPage)
    {
      if resourceDetail.imageUrl != "" {
        isContentPage, isImagePage, isPreviewPage, isImageNextBtnDisabled := false, false, true, false;
      } else {
        isImageNextBtnDisabled := true;
      }
    }

    /** `handleImageBackButtonClick`: back to the content page, with the tag
        count error cleared. */
    method HandleImageBackButtonClick()
      requires Valid()
      modifies this`isContentPage, this`isImagePage, this`isPreviewPage, this`isTagsCountValid
      ensures Valid()
      ensures isContentPage && !isImagePage && !isPreviewPage && isTagsCountValid
    {
      isContentPage, isImagePage, isPreviewPage := true, false, false;
      isTagsCountValid := true;
    }

    /** `handlePreviewBackButtonClick`: back to the image page. */
    method HandlePreviewBackButtonClick()
      requires Valid()
      modifies this`isContentPage, this`isImagePage, this`isPreviewPage
      ensures Valid()
      ensures !isContentPage && isImagePage && !isPreviewPage
    {
      isContentPage, isImagePage, isPreviewPage := false, true, false;
    }
  }
}
