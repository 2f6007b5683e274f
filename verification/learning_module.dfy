/** The learning-module authoring form: a teacher enters a module's title,
    description, grade, subject and tags, picks a preview image and reviews
    it. When an existing module is edited, its member resources are listed
    with a check box each, and the checked ones form the module's content.
    The state fields of the React component are the fields of
    `LearningModuleForm`; each handler is one atomic update of them, and
    each awaited server answer is an argument. */
module LearningModule {
  import opened Wrappers
  import opened Text
  import opened Sequences
  import opened Authoring

  /** The fields of a learning module the form edits. Strings are "" where
      the record's field is empty, null or undefined. */
  datatype ModuleDetail = ModuleDetail(
    id: string, title: string, description: string, imageUrl: string,
    gradeId: string, gradeName: string, subjectId: string, subjectName: string)

  const EmptyModule: ModuleDetail := ModuleDetail("", "", "", "", "", "", "", "")

  /** A resource of the module as the form lists it; `checkItem` is its
      check box. */
  datatype ResourceItem = ResourceItem(id: string, title: string, checkItem: bool)

  predicate IsChecked(item: ResourceItem) {
    item.checkItem
  }

  /** A tag join row of a stored module: the tag's id and its name. */
  datatype ModuleTag = ModuleTag(tagId: string, tagName: string)

  /** What the server returns for a module: the module, its tags and its
      member resources. */
  datatype ModuleResourceView = ModuleResourceView(
    learningModule: ModuleDetail, tags: seq<ModuleTag>, resources: seq<ResourceItem>)

  /** The drop-down items the tag picker shows for stored tags. */
  function TagItems(tags: seq<ModuleTag>): (items: seq<DropDownItem>)
    ensures |items| == |tags|
    ensures forall i :: 0 <= i < |tags| ==> items[i] == DropDownItem(tags[i].tagId, tags[i].tagName)
  {
    if tags == [] then [] else [DropDownItem(tags[0].tagId, tags[0].tagName)] + TagItems(tags[1..])
  }

  /** The tag ids a stored module's tag picker starts from are the module's
      own tag ids. */
  lemma {:induction false} StoredTagKeys(tags: seq<ModuleTag>)
    ensures |TagKeys(TagItems(tags))| == |tags|
    ensures forall i :: 0 <= i < |tags| ==> TagKeys(TagItems(tags))[i] == tags[i].tagId
  {
    var items := TagItems(tags);
    assert forall i :: 0 <= i < |tags| ==> TagKeys(items)[i] == items[i].key;
  }

  /** One resource after its check box was set to `checked` when its id is
      `id`; other resources are left as they are. */
  function Mark(item: ResourceItem, id: string, checked: bool): ResourceItem {
    if item.id == id then item.(checkItem := checked) else item
  }

  /** The resource list after the check box of every resource with id `id`
      was set to `checked`. */
  function SetChecked(items: seq<ResourceItem>, id: string, checked: bool): (r: seq<ResourceItem>)
    ensures |r| == |items|
    ensures forall i :: 0 <= i < |items| ==>
      && r[i].id == items[i].id && r[i].title == items[i].title
      && r[i].checkItem == (if items[i].id == id then checked else items[i].checkItem)
  {
    if items == [] then [] else [Mark(items[0], id, checked)] + SetChecked(items[1..], id, checked)
  }

  /** After a resource is selected, every resource with its id is in the
      module's selection. */
  lemma {:induction false} SelectedResourceIsListed(items: seq<ResourceItem>, id: string, k: nat)
    requires k < |items| && items[k].id == id
    ensures items[k].(checkItem := true) in Filter(SetChecked(items, id, true), IsChecked)
  {
    var marked := SetChecked(items, id, true);
    assert marked[k] == items[k].(checkItem := true);
    FilterMember(marked, IsChecked, marked[k]);
  }

  /** After a resource is deselected, no resource with its id is in the
      module's selection. */
  lemma {:induction false} DeselectedResourceIsNotListed(items: seq<ResourceItem>, id: string, x: ResourceItem)
    requires x.id == id
    ensures x !in Filter(SetChecked(items, id, false), IsChecked)
  {
    var marked := SetChecked(items, id, false);
    FilterMember(marked, IsChecked, x);
    assert forall k :: 0 <= k < |marked| ==> marked[k] != x || !x.checkItem;
  }

  /** Selecting or deselecting one resource leaves the selection of every
      resource with another id as it was. */
  lemma OtherResourcesKeepSelection(items: seq<ResourceItem>, id: string, checked: bool, x: ResourceItem)
    requires x.id != id
    ensures x in Filter(SetChecked(items, id, checked), IsChecked) <==> x in Filter(items, IsChecked)
  {
    var marked := SetChecked(items, id, checked);
    FilterMember(marked, IsChecked, x);
    FilterMember(items, IsChecked, x);
    assert forall k :: 0 <= k < |items| ==> (marked[k] == x <==> items[k] == x);
  }

  /** The resources with every check box ticked. */
  function AllChecked(resources: seq<ResourceItem>): (r: seq<ResourceItem>)
    ensures |r| == |resources|
    ensures forall i :: 0 <= i < |r| ==> r[i] == resources[i].(checkItem := true)
  {
    if resources == [] then [] else [resources[0].(checkItem := true)] + AllChecked(resources[1..])
  }

  /** The loop of `getLearningModuleDetail` that ticks the check box of
      every loaded resource. */
  method CheckAll(resources: seq<ResourceItem>) returns (items: seq<ResourceItem>)
    ensures items == AllChecked(resources)
    ensures Filter(items, IsChecked) == items
  {
    items := resources;
    var i := 0;
    while i < |items|
      invariant 0 <= i <= |items| == |resources|
      invariant forall k :: 0 <= k < i ==> items[k] == resources[k].(checkItem := true)
      invariant forall k :: i <= k < |items| ==> items[k] == resources[k]
    {
      items := items[i := items[i].(checkItem := true)];
      i := i + 1;
    }
    FilterAllQualify(items, IsChecked);
  }

  /** The first loop of `onLearningModuleSelected`: sets the check box of
      every resource with id `id` to `checked`. */
  method MarkResources(items: seq<ResourceItem>, id: string, checked: bool) returns (marked: seq<ResourceItem>)
    ensures marked == SetChecked(items, id, checked)
  {
    marked := items;
    var i := 0;
    while i < |marked|
      invariant 0 <= i <= |marked| == |items|
      invariant forall k :: 0 <= k < i ==> marked[k] == Mark(items[k], id, checked)
      invariant forall k :: i <= k < |marked| ==> marked[k] == items[k]
    {
      if marked[i].id == id {
        marked := marked[i := marked[i].(checkItem := checked)];
      }
      i := i + 1;
    }
    assert forall k :: 0 <= k < |items| ==> SetChecked(items, id, checked)[k] == Mark(items[k], id, checked);
  }

  /** The second loop of `onLearningModuleSelected`: the checked resources,
      in list order. */
  method CheckedResources(items: seq<ResourceItem>) returns (edit: seq<ResourceItem>)
    ensures edit == Filter(items, IsChecked)
  {
    edit := [];
    var i := 0;
    while i < |items|
      invariant 0 <= i <= |items|
      invariant edit == Filter(items[..i], IsChecked)
    {
      assert items[..i + 1] == items[..i] + [items[i]];
      FilterAppend(items[..i], [items[i]], IsChecked);
      if items[i].checkItem {
        edit := edit + [items[i]];
      }
      i := i + 1;
    }
    assert items[..i] == items;
  }

  /** The validation flags `checkIfSubmitAllowed` computes. */
  datatype ModuleValidation = ModuleValidation(
    isTitlePresent: bool, isTitleValid: bool, isDescriptionValid: bool,
    isGradeValid: bool, isSubjectValid: bool)
  {
    predicate SubmitAllowed() {
      isGradeValid && isSubjectValid && isDescriptionValid && isTitlePresent && isTitleValid
    }
  }

  /** The flags of a freshly opened form: no error is shown. */
  const AllValid: ModuleValidation := ModuleValidation(true, true, true, true, true)

  /** The checks of `checkIfSubmitAllowed` over the module and the title
      verdict. An undefined title verdict counts as invalid, since the form
      only ever tests the flag for falsity. */
  function ValidateModule(detail: ModuleDetail, titleValid: Option<bool>): ModuleValidation {
    ModuleValidation(
      isTitlePresent := !IsNullOrWhiteSpace(detail.title),
      isTitleValid := titleValid == Some(true),
      isDescriptionValid := !IsNullOrWhiteSpace(detail.description),
      isGradeValid := detail.gradeId != "",
      isSubjectValid := detail.subjectId != "")
  }

  /** A module may be submitted iff its title is present and free (in edit
      mode, held by no other module than itself), its description is not
      blank, and grade and subject are set. */
  lemma ModuleSubmitAllowedIff(detail: ModuleDetail, isEditMode: bool, ownId: string,
                               sameTitled: Response<seq<string>>)
    ensures ValidateModule(detail, TitleCheck(detail.title, isEditMode, ownId, sameTitled)).SubmitAllowed() <==>
      && !IsNullOrWhiteSpace(detail.title)
      && sameTitled.status == StatusOk && sameTitled.data.Some?
      && (sameTitled.data.value == [] || (isEditMode && sameTitled.data.value == [ownId]))
      && !IsNullOrWhiteSpace(detail.description)
      && detail.gradeId != "" && detail.subjectId != ""
  {
    assert IsNullOrWhiteSpace("");
  }

  class LearningModuleForm {
    // query-string id of the module being edited ("" when adding); it is
    // both the id the module is loaded by and the id a title may belong to
    const resourceId: string
    // Resources.tagsMaxCount
    const tagsMaxCount: nat

    var learningModuleDetail: ModuleDetail
    // the validation flags of the component state, kept together
    var validation: ModuleValidation
    var loading: bool
    var isSaveButtonLoading: bool
    var isSaveButtonDisabled: bool
    var isImageNextBtnDisabled: bool
    var error: string
    var isContentPage: bool
    var isImagePage: bool
    var isPreviewPage: bool
    var isEditMode: bool
    var editTitleText: string
    var filteredItem: seq<ResourceItem>
    var userSelectedItem: string
    var filterItemEdit: seq<ResourceItem>
    var isGradeSubjectDisable: bool
    var isTagsCountValid: bool
    var learningModuleTag: seq<string>
    var selectedTags: seq<DropDownItem>

    /** One page shows at a time, the module's selected content is exactly
        its checked resources in list order, and the tag ids to save never
        exceed the cap. */
    ghost predicate Valid()
      reads this
    {
      && ExactlyOnePage(isContentPage, isImagePage, isPreviewPage)
      && filterItemEdit == Filter(filteredItem, IsChecked)
      && |learningModuleTag| <= tagsMaxCount
    }

    /** The component's initial state. */
    constructor (resourceId: string, tagsMaxCount: nat)
      ensures Valid()
      ensures this.resourceId == resourceId && this.tagsMaxCount == tagsMaxCount
      ensures learningModuleDetail == EmptyModule && validation == AllValid
      ensures !loading && !isSaveButtonLoading && !isSaveButtonDisabled && isImageNextBtnDisabled
      ensures error == "" && isContentPage && !isImagePage && !isPreviewPage
      ensures !isEditMode && editTitleText == "" && filteredItem == [] && userSelectedItem == ""
      ensures filterItemEdit == [] && !isGradeSubjectDisable && isTagsCountValid
      ensures learningModuleTag == [] && selectedTags == []
    {
      this.resourceId := resourceId;
      this.tagsMaxCount := tagsMaxCount;
      learningModuleDetail, validation := EmptyModule, AllValid;
      loading, isSaveButtonLoading, isSaveButtonDisabled, isImageNextBtnDisabled := false, false, false, true;
      error := "";
      isContentPage, isImagePage, isPreviewPage := true, false, false;
      isEditMode, editTitleText, filteredItem, userSelectedItem := false, "", [], "";
      filterItemEdit, isGradeSubjectDisable, isTagsCountValid := [], false, true;
      learningModuleTag, selectedTags := [], [];
    }

    /** `componentDidMount`, once the Teams context is known: an edit
        request switches to edit mode and starts loading; otherwise a
        request to add a resource to a new module locks grade and subject
        and starts loading; any other request leaves the state alone. */
    method ComponentDidMount(isEditRequest: bool, isResourceAddMode: bool)
      requires Valid()
      modifies this`isEditMode, this`loading, this`isGradeSubjectDisable
      ensures Valid()
      ensures isEditRequest ==>
        isEditMode && loading && isGradeSubjectDisable == old(isGradeSubjectDisable)
      ensures !isEditRequest && isResourceAddMode ==>
        isGradeSubjectDisable && loading && isEditMode == old(isEditMode)
      ensures !isEditRequest && !isResourceAddMode ==>
        && isEditMode == old(isEditMode) && loading == old(loading)
        && isGradeSubjectDisable == old(isGradeSubjectDisable)
    {
      if isEditRequest {
        isEditMode, loading := true, true;
      } else if isResourceAddMode {
        isGradeSubjectDisable, loading := true, true;
      }
    }

    /** `getLearningModuleDetail`: a response that carries data, whatever
        its status, fills the form with the stored module (`ShowModule`);
        a response without data changes nothing. */
    method GetLearningModuleDetail(response: Response<ModuleResourceView>)
      requires Valid()
      modifies this`learningModuleDetail, this`editTitleText, this`filteredItem,
               this`loading, this`filterItemEdit, this`isImageNextBtnDisabled,
               this`selectedTags, this`isGradeSubjectDisable
      ensures Valid()
      ensures response.data.None? ==>
        && learningModuleDetail == old(learningModuleDetail) && editTitleText == old(editTitleText)
        && filteredItem == old(filteredItem) && filterItemEdit == old(filterItemEdit)
        && loading == old(loading) && isImageNextBtnDisabled == old(isImageNextBtnDisabled)
        && selectedTags == old(selectedTags) && isGradeSubjectDisable == old(isGradeSubjectDisable)
      ensures response.data.Some? ==> Shows(response.data.value)
    {
      if response.data.Some? {
        ShowModule(response.data.value);
      }
    }

    /** The form shows the stored module `view`: every member resource is
        checked, so all of them are the module's content; grade and subject
        are locked iff the module has a member; the image page's next
        button is enabled iff the module has an image. */
    ghost predicate Shows(view: ModuleResourceView)
      reads this
    {
      && learningModuleDetail == view.learningModule
      && editTitleText == Trim(view.learningModule.title)
      && filteredItem == AllChecked(view.resources) && filterItemEdit == filteredItem
      && !loading
      && (isImageNextBtnDisabled <==> view.learningModule.imageUrl == "")
      && selectedTags == TagItems(view.tags)
      && (isGradeSubjectDisable <==> |view.resources| > 0)
    }

    /** The updates `getLearningModuleDetail` makes for a loaded module; the
        tag ids to save are not among them. */
    method ShowModule(view: ModuleResourceView)
      requires Valid()
      modifies this`learningModuleDetail, this`editTitleText, this`filteredItem,
               this`loading, this`filterItemEdit, this`isImageNextBtnDisabled,
               this`selectedTags, this`isGradeSubjectDisable
      ensures Valid()
      ensures Shows(view)
    {
      var title, disabled, tags := Trim(view.learningModule.title), view.learningModule.imageUrl == "", TagItems(view.tags);
      learningModuleDetail, editTitleText, loading, isImageNextBtnDisabled, selectedTags
        := view.learningModule, title, false, disabled, tags;
      ShowResources(view.resources);
    }

    /** The member resources of a loaded module, every one checked, and
        grade and subject locked iff there is one. */
    method ShowResources(resources: seq<ResourceItem>)
      requires Valid()
      modifies this`filteredItem, this`filterItemEdit, this`isGradeSubjectDisable
      ensures Valid()
      ensures filteredItem == AllChecked(resources) && filterItemEdit == filteredItem
      ensures isGradeSubjectDisable <==> |resources| > 0
    {
      var items := CheckAll(resources);
      filteredItem, filterItemEdit, isGradeSubjectDisable := items, items, |items| > 0;
    }

    /** The load with the stored module's tag ids also taken as the tag ids
        to save, so that an update that leaves the tag picker alone keeps the
        module's tags. A stored module carries no more tags than the picker
        admits, since its tags were chosen through it. */
    method ShowModuleWithTagIds(view: ModuleResourceView)
      requires Valid()
      requires |view.tags| <= tagsMaxCount
      modifies this`learningModuleDetail, this`editTitleText, this`filteredItem,
               this`loading, this`filterItemEdit, this`isImageNextBtnDisabled,
               this`selectedTags, this`isGradeSubjectDisable, this`learningModuleTag
      ensures Valid()
      ensures Shows(view)
      ensures learningModuleTag == TagKeys(selectedTags)
      ensures |learningModuleTag| == |view.tags|
      ensures forall i :: 0 <= i < |view.tags| ==> learningModuleTag[i] == view.tags[i].tagId
    {
      StoredTagKeys(view.tags);
      learningModuleTag := TagKeys(TagItems(view.tags));
      ShowModule(view);
    }

    /** `handleGradeChange`: the grade id and the grade name come from the
        same drop-down item; nothing happens when no item is given. */
    method HandleGradeChange(selected: Option<DropDownItem>)
      requires Valid()
      modifies this`learningModuleDetail, this`validation, this`error
      ensures Valid()
      ensures selected.None? ==>
        learningModuleDetail == old(learningModuleDetail) && validation == old(validation) && error == old(error)
      ensures selected.Some? ==>
        && learningModuleDetail == old(learningModuleDetail).(gradeId := selected.value.key, gradeName := selected.value.header)
        && validation == old(validation).(isGradeValid := true) && error == ""
    {
      if selected.Some? {
        learningModuleDetail := learningModuleDetail.(gradeId := selected.value.key, gradeName := selected.value.header);
        validation := validation.(isGradeValid := true);
        error := "";
      }
    }

    /** `handleSubjectChange`, the same for the subject. */
    method HandleSubjectChange(selected: Option<DropDownItem>)
      requires Valid()
      modifies this`learningModuleDetail, this`validation, this`error
      ensures Valid()
      ensures selected.None? ==>
        learningModuleDetail == old(learningModuleDetail) && validation == old(validation) && error == old(error)
      ensures selected.Some? ==>
        && learningModuleDetail == old(learningModuleDetail).(subjectId := selected.value.key, subjectName := selected.value.header)
        && validation == old(validation).(isSubjectValid := true) && error == ""
    {
      if selected.Some? {
        learningModuleDetail := learningModuleDetail.(subjectId := selected.value.key, subjectName := selected.value.header);
        validation := validation.(isSubjectValid := true);
        error := "";
      }
    }

    /** `handleTagChange`: a selection over the cap only marks the count
        invalid and keeps the previous tags; otherwise the tags and the tag
        ids to save become the selection, in selection order. */
    method HandleTagChange(tags: seq<DropDownItem>)
      requires Valid()
      modifies this`isTagsCountValid, this`selectedTags, this`learningModuleTag
      ensures Valid()
      ensures |tags| > tagsMaxCount ==>
        !isTagsCountValid && selectedTags == old(selectedTags) && learningModuleTag == old(learningModuleTag)
      ensures |tags| <= tagsMaxCount ==>
        isTagsCountValid && selectedTags == tags && learningModuleTag == TagKeys(tags)
    {
      if |tags| > tagsMaxCount {
        isTagsCountValid := false;
        return;
      }
      selectedTags := tags;
      learningModuleTag := TagKeys(tags);
      isTagsCountValid := true;
    }

    /** `handleTitleChange`: editing the title clears the title-taken flag
        (the title-missing flag stays). */
    method HandleTitleChange(title: string)
      requires Valid()
      modifies this`learningModuleDetail, this`validation, this`error
      ensures Valid()
      ensures learningModuleDetail == old(learningModuleDetail).(title := title)
      ensures validation == old(validation).(isTitleValid := true) && error == ""
    {
      learningModuleDetail := learningModuleDetail.(title := title);
      validation := validation.(isTitleValid := true);
      error := "";
    }

    /** `handleDescriptionChange`. */
    method HandleDescriptionChange(description: string)
      requires Valid()
      modifies this`learningModuleDetail, this`validation, this`error
      ensures Valid()
      ensures learningModuleDetail == old(learningModuleDetail).(description := description)
      ensures validation == old(validation).(isDescriptionValid := true) && error == ""
    {
      learningModuleDetail := learningModuleDetail.(description := description);
      validation := validation.(isDescriptionValid := true);
      error := "";
    }

    /** `handleImageClick`: picking an image enables the image page's next
        button. */
    method HandleImageClick(url: string)
      requires Valid()
      modifies this`learningModuleDetail, this`isImageNextBtnDisabled
      ensures Valid()
      ensures learningModuleDetail == old(learningModuleDetail).(imageUrl := url)
      ensures !isImageNextBtnDisabled
    {
      learningModuleDetail := learningModuleDetail.(imageUrl := url);
      isImageNextBtnDisabled := false;
    }

    /** The checks of `checkIfSubmitAllowed` on the current state, given the
        server's list of modules that carry the same title. */
    function Verdict(sameTitled: Response<seq<string>>): ModuleValidation
      reads this
    {
      ValidateModule(learningModuleDetail, TitleCheck(learningModuleDetail.title, isEditMode, resourceId, sameTitled))
    }

    /** `checkIfSubmitAllowed`: stores every validation flag and returns
        whether all of them hold. */
    method CheckIfSubmitAllowed(sameTitled: Response<seq<string>>) returns (allowed: bool)
      requires Valid()
      modifies this`validation
      ensures Valid()
      ensures validation == old(Verdict(sameTitled))
      ensures allowed == validation.SubmitAllowed()
    {
      validation := Verdict(sameTitled);
      allowed := validation.SubmitAllowed();
    }

    /** `handleContentNextButtonClick`: moves to the image page exactly when
        submit is allowed. */
    method HandleContentNextButtonClick(sameTitled: Response<seq<string>>)
      requires Valid()
      modifies this`validation, this`isContentPage, this`isImagePage, this`isPreviewPage
      ensures Valid()
      ensures validation == old(Verdict(sameTitled))
      ensures validation.SubmitAllowed() ==> !isContentPage && isImagePage && !isPreviewPage
      ensures !validation.SubmitAllowed() ==>
        isContentPage == old(isContentPage) && isImagePage == old(isImagePage) && isPreviewPage == old(isPreviewPage)
    {
      var allowed := CheckIfSubmitAllowed(sameTitled);
      if allowed {
        isContentPage, isImagePage, isPreviewPage := false, true, false;
      }
    }

    /** `handleImageNextButtonClick`: moves to the preview only once an
        image has been picked; otherwise the next button is disabled. */
    method HandleImageNextButtonClick()
      requires Valid()
      modifies this`isContentPage, this`isImagePage, this`isPreviewPage, this`isImageNextBtnDisabled
      ensures Valid()
      ensures old(learningModuleDetail.imageUrl) != "" ==>
        !isContentPage && !isImagePage && isPreviewPage && !isImageNextBtnDisabled
      ensures old(learningModuleDetail.imageUrl) == "" ==>
        && isImageNextBtnDisabled && isContentPage == old(isContentPage)
        && isImagePage == old(isImagePage) && isPreviewPage == old(isPreviewPage)
    {
      if learningModuleDetail.imageUrl != "" {
        isContentPage, isImagePage, isPreviewPage, isImageNextBtnDisabled := false, false, true, false;
      } else {
        isImageNextBtnDisabled := true;
      }
    }

    /** `handleImageBackButtonClick`: back to the content page; unlike the
        resource form, the tag count error is kept. */
    method HandleImageBackButtonClick()
      requires Valid()
      modifies this`isContentPage, this`isImagePage, this`isPreviewPage
      ensures Valid()
      ensures isContentPage && !isImagePage && !isPreviewPage
    {
      isContentPage, isImagePage, isPreviewPage := true, false, false;
    }

    /** `handlePreviewBackButtonClick`: back to the image page. */
    method HandlePreviewBackButtonClick()
      requires Valid()
      modifies this`isContentPage, this`isImagePage, this`isPreviewPage
      ensures Valid()
      ensures !isContentPage && isImagePage && !isPreviewPage
    {
      isContentPage, isImagePage, isPreviewPage := false, true, false;
    }

    /** `onLearningModuleSelected`: the check box of every listed resource
        with the given id takes the new value, the selected id is remembered
        (or forgotten), and the module's content is rebuilt from the checked
        resources in list order. */
    method OnLearningModuleSelected(selectedId: string, isSelected: bool)
      requires Valid()
      modifies this`filteredItem, this`filterItemEdit, this`userSelectedItem
      ensures Valid()
      ensures filteredItem == SetChecked(old(filteredItem), selectedId, isSelected)
      ensures userSelectedItem == if isSelected then selectedId else ""
    {
      var items := MarkResources(filteredItem, selectedId, isSelected);
      var edit := CheckedResources(items);
      filteredItem, filterItemEdit := items, edit;
      userSelectedItem := if isSelected then selectedId else "";
    }
  }

  /** Editing a stored module with one tag: once it is loaded, the tag
      picker shows the tag, but the tag ids an update would save are still
      the initial empty list. */
  method StoredTagsDroppedScenario() returns (shown: seq<DropDownItem>, saved: seq<string>)
    ensures shown == [DropDownItem("tag-1", "Maths")]
    ensures saved == []
  {
    var form := new LearningModuleForm("module-1", 3);
    form.ComponentDidMount(true, false);
    var stored := ModuleDetail("module-1", "Fractions", "Halves and quarters", "", "grade-5", "Grade 5", "maths", "Maths");
    var view := ModuleResourceView(stored, [ModuleTag("tag-1", "Maths")], []);
    form.GetLearningModuleDetail(Response(StatusOk, Some(view)));
    shown, saved := form.selectedTags, form.learningModuleTag;
  }
}
