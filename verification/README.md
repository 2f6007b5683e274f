# LearnNow authoring forms — a Dafny model

LearnNow is a Microsoft Teams app in which teachers share learning
resources and group them into learning modules. This project models the
client-side core of its authoring flow, and one server-side filter:

- The resource form (`resource-content.tsx`) is modelled as `ResourceContent.ResourceContentForm`.
  A teacher enters a title, a description, a resource type, a file or a link,
  a grade, a subject and tags. The teacher then picks a preview image and
  reviews the resource.
- The learning-module form (`learning-module.tsx`) is modelled as `LearningModule.LearningModuleForm`.
  It works the same way for a module. When an existing module is edited, the
  form also lists the module's resources with a check box each.
- The administrator forms that add a grade, edit a grade and edit a subject are modelled as
  `AddGrade.AddGradeForm`, `EditGrade.EditGradeForm` and `EditSubject.EditSubjectForm`.
- The image search service keeps only image URLs that start with "https".
  Its filter loop is `BingImageService.GetSearchResult`.

Each React component becomes a class:
- every state field is a field of the class;
- every event handler is one method that updates those fields atomically, with field-granular `modifies` clauses;
- every awaited server answer (status code and optional data) is an argument of type `Wrappers.Response`.

Shared logic has modules of its own:
- `Text` holds JavaScript `trim`, `isNullorWhiteSpace` and ASCII case folding.
- `Sequences` holds order-preserving filtering and its lemmas.
- `Authoring` holds the title-uniqueness verdict both forms use, tag keys and the one-page-at-a-time predicate.

Both authoring forms keep these invariants, and every handler is proved to preserve them:
- exactly one of the content, image and preview pages shows;
- there are never more tag ids to save than the cap.

The resource form also keeps this one:
- the tag ids to save are the ids of the selected tags, in order.

The learning-module form also keeps this one:
- its content list is exactly its checked resources, in list order.

The learning-module form does not keep the tag ids to save in step with the selected tags. Loading a stored module fills the tag picker but leaves the tag ids to save empty; see "## Findings".

In the resource form, choosing "external link" hides an attached file but keeps its extension. So a resource whose file was attached before its type was switched to a link is refused at submit: the kept extension demands a file type, not the link type (`HandleTypeOfResourceChange`, `ValidateResourceType`).


## Model

| member | source | states |
|---|---|---|
| Text.TrimStartRemovesBlankPrefix | Source/Microsoft.Teams.Apps.LearnNow/ClientApp/src/components/learning-module/learning-module.tsx:227 | the leading part `trim()` removes is all white space, and what remains is a suffix of the input that starts with a non-white-space character |
| Text.TrimEndRemovesBlankSuffix | Source/Microsoft.Teams.Apps.LearnNow/ClientApp/src/components/learning-module/learning-module.tsx:227 | the trailing part `trim()` removes is all white space, and what remains is a prefix of the input that ends with a non-white-space character |
| Text.TrimEmptyIffBlank | Source/Microsoft.Teams.Apps.LearnNow/ClientApp/src/components/learning-module/learning-module.tsx:426-433 | a string is null-or-white-space exactly when its trimmed form is empty |
| Text.AsciiLower | Source/Microsoft.Teams.Apps.LearnNow/ClientApp/src/components/resource-content/resource-content.tsx:433 | lower-casing keeps the length and maps every character on its own |
| Text.AsciiLowerIdempotent | Source/Microsoft.Teams.Apps.LearnNow/ClientApp/src/components/resource-content/resource-content.tsx:433 | lower-casing twice gives the same result as lower-casing once |
| BingImageService.GetSearchResult | Source/Microsoft.Teams.Apps.LearnNow/Helpers/BingImageService.cs:57-72 | the loop returns exactly the input URLs that start with "https" in any letter case, in input order |
| BingImageService.ResultIsHttpsOnly | Source/Microsoft.Teams.Apps.LearnNow/Helpers/BingImageService.cs:66 | every returned URL starts with "https", ignoring case |
| BingImageService.ResultKeepsOrder | Source/Microsoft.Teams.Apps.LearnNow/Helpers/BingImageService.cs:63-70 | the result is a subsequence of the search results |
| BingImageService.ResultKeepsEveryHttpsUrl | Source/Microsoft.Teams.Apps.LearnNow/Helpers/BingImageService.cs:63-70 | a qualifying URL occurs in the result as often as in the input, and any other URL never occurs in it |
| BingImageService.PlainHttpExcluded | Source/Microsoft.Teams.Apps.LearnNow/Helpers/BingImageService.cs:65-66 | no "http://" URL is kept |
| BingImageService.HttpsInAnyCaseIncluded | Source/Microsoft.Teams.Apps.LearnNow/Helpers/BingImageService.cs:66 | "https://" and "HTTPS://" URLs are both kept |
| Authoring.TagKeys | Source/Microsoft.Teams.Apps.LearnNow/ClientApp/src/components/resource-content/resource-content.tsx:333-339 | there is one tag id per selected item, and it is that item's key, in selection order |
| Authoring.TitleCheck | Source/Microsoft.Teams.Apps.LearnNow/ClientApp/src/components/resource-content/resource-content.tsx:470-483 | the verdict is undefined iff the title is empty. A title is free iff the lookup succeeded and no record holds it, or, in edit mode, only the record being edited holds it. A failed lookup never lets a title through |
| ResourceContent.RequiredResourceType | Source/Microsoft.Teams.Apps.LearnNow/ClientApp/src/components/resource-content/resource-content.tsx:425-456 | the type an attachment demands is always one of the five real types |
| ResourceContent.ValidateResourceType | Source/Microsoft.Teams.Apps.LearnNow/ClientApp/src/components/resource-content/resource-content.tsx:425-456 | a type is accepted iff it is the one type the extension and link demand (from the extension table in Source/Microsoft.Teams.Apps.LearnNow/ClientApp/src/components/file-control/file-types.ts:14-20), so exactly one type is accepted |
| ResourceContent.ExtensionCaseIgnored | Source/Microsoft.Teams.Apps.LearnNow/ClientApp/src/components/resource-content/resource-content.tsx:433 | the letter case of the extension does not change the verdict |
| ResourceContent.SubmitAllowedIff | Source/Microsoft.Teams.Apps.LearnNow/ClientApp/src/components/resource-content/resource-content.tsx:566-632 | a resource may be submitted iff all of these hold: its title is present and free; its type matches its attachment; its description is not blank; grade and subject are chosen; there is a link or a file; any link matches the URL pattern |
| ResourceContent.LinkOnlyResourceIsExternalLink | Source/Microsoft.Teams.Apps.LearnNow/ClientApp/src/components/resource-content/resource-content.tsx:566-632 | a resource submitted without a file is an external link whose URL matches the pattern |
| ResourceContent.ResourceContentForm.constructor | Source/Microsoft.Teams.Apps.LearnNow/ClientApp/src/components/resource-content/resource-content.tsx:89-130 | the initial state: an empty resource, every flag valid, the content page showing |
| ResourceContent.ResourceContentForm.HandleTypeOfResourceChange | Source/Microsoft.Teams.Apps.LearnNow/ClientApp/src/components/resource-content/resource-content.tsx:276-288 | the type is stored and its errors are cleared. Upload is disabled, and the attachment hidden, iff the type is external link |
| ResourceContent.ResourceContentForm.HandleGradeChange | Source/Microsoft.Teams.Apps.LearnNow/ClientApp/src/components/resource-content/resource-content.tsx:295-302 | grade id and grade name come from the same item. With no item, nothing changes |
| ResourceContent.ResourceContentForm.HandleSubjectChange | Source/Microsoft.Teams.Apps.LearnNow/ClientApp/src/components/resource-content/resource-content.tsx:309-316 | the same as the grade handler, for the subject |
| ResourceContent.ResourceContentForm.HandleTagChange | Source/Microsoft.Teams.Apps.LearnNow/ClientApp/src/components/resource-content/resource-content.tsx:323-342 | a selection over the cap only raises the count error. Any other selection becomes the tags and their ids. The cap invariant is kept |
| ResourceContent.ResourceContentForm.HandleTitleChange | Source/Microsoft.Teams.Apps.LearnNow/ClientApp/src/components/resource-content/resource-content.tsx:356-360 | the title is stored; both title errors and the error text are cleared |
| ResourceContent.ResourceContentForm.HandleDescriptionChange | Source/Microsoft.Teams.Apps.LearnNow/ClientApp/src/components/resource-content/resource-content.tsx:366-370 | the description is stored and its error is cleared |
| ResourceContent.ResourceContentForm.HandleLinkChange | Source/Microsoft.Teams.Apps.LearnNow/ClientApp/src/components/resource-content/resource-content.tsx:376-385 | the link is stored. An empty link re-enables upload. A non-empty one clears the link and attachment errors |
| ResourceContent.ResourceContentForm.HandleImageClick | Source/Microsoft.Teams.Apps.LearnNow/ClientApp/src/components/resource-content/resource-content.tsx:391-395 | the image is stored and the image page's next button is enabled |
| ResourceContent.ResourceContentForm.SetFileUploadError | Source/Microsoft.Teams.Apps.LearnNow/ClientApp/src/components/resource-content/resource-content.tsx:401-403 | the file-size flag is stored and the attachment error is cleared |
| ResourceContent.ResourceContentForm.SetFileFormatError | Source/Microsoft.Teams.Apps.LearnNow/ClientApp/src/components/resource-content/resource-content.tsx:409-411 | the file-format flag is stored |
| ResourceContent.ResourceContentForm.ShowStoredAttachment | Source/Microsoft.Teams.Apps.LearnNow/ClientApp/src/components/resource-content/resource-content.tsx:638-642 | a stored attachment is shown with its name and extension |
| ResourceContent.ResourceContentForm.RemoveFileAttachment | Source/Microsoft.Teams.Apps.LearnNow/ClientApp/src/components/resource-content/resource-content.tsx:647-649 | the attachment is hidden, and its name and extension are forgotten |
| ResourceContent.ResourceContentForm.SetUploadedFileInformation | Source/Microsoft.Teams.Apps.LearnNow/ClientApp/src/components/resource-content/resource-content.tsx:657-662 | a new file is shown and its size and format errors are cleared |
| ResourceContent.ResourceContentForm.CheckIfSubmitAllowed | Source/Microsoft.Teams.Apps.LearnNow/ClientApp/src/components/resource-content/resource-content.tsx:566-632 | every flag is stored as the checks on the pre-state give it. The answer is the conjunction of the flags. The save button shows as busy |
| ResourceContent.ResourceContentForm.HandleContentNextButtonClick | Source/Microsoft.Teams.Apps.LearnNow/ClientApp/src/components/resource-content/resource-content.tsx:728-732 | the image page shows iff submit is allowed; otherwise the page does not change |
| ResourceContent.ResourceContentForm.HandleImageNextButtonClick | Source/Microsoft.Teams.Apps.LearnNow/ClientApp/src/components/resource-content/resource-content.tsx:737-744 | the preview shows iff an image is chosen; otherwise the next button is disabled |
| ResourceContent.ResourceContentForm.HandleImageBackButtonClick | Source/Microsoft.Teams.Apps.LearnNow/ClientApp/src/components/resource-content/resource-content.tsx:749-751 | back to the content page, with the tag count error cleared |
| ResourceContent.ResourceContentForm.HandlePreviewBackButtonClick | Source/Microsoft.Teams.Apps.LearnNow/ClientApp/src/components/resource-content/resource-content.tsx:764-766 | back to the image page |
| LearningModule.TagItems | Source/Microsoft.Teams.Apps.LearnNow/ClientApp/src/components/learning-module/learning-module.tsx:232-238 | each stored tag becomes one drop-down item keyed by its tag id and labelled with its name |
| LearningModule.StoredTagKeys | Source/Microsoft.Teams.Apps.LearnNow/ClientApp/src/components/learning-module/learning-module.tsx:232-238 | the tag ids of the items shown for a stored module are the module's own tag ids |
| LearningModule.SetChecked | Source/Microsoft.Teams.Apps.LearnNow/ClientApp/src/components/learning-module/learning-module.tsx:630-660 | only the check boxes of resources with the given id change. Ids and titles are kept |
| LearningModule.SelectedResourceIsListed | Source/Microsoft.Teams.Apps.LearnNow/ClientApp/src/components/learning-module/learning-module.tsx:630-660 | a selected resource is in the module's content |
| LearningModule.DeselectedResourceIsNotListed | Source/Microsoft.Teams.Apps.LearnNow/ClientApp/src/components/learning-module/learning-module.tsx:630-660 | a deselected resource is not in the module's content |
| LearningModule.OtherResourcesKeepSelection | Source/Microsoft.Teams.Apps.LearnNow/ClientApp/src/components/learning-module/learning-module.tsx:630-660 | selecting or deselecting one resource does not change whether any resource with another id is in the content |
| LearningModule.AllChecked | Source/Microsoft.Teams.Apps.LearnNow/ClientApp/src/components/learning-module/learning-module.tsx:240-248 | every loaded resource is kept in place with its check box ticked |
| LearningModule.CheckAll | Source/Microsoft.Teams.Apps.LearnNow/ClientApp/src/components/learning-module/learning-module.tsx:240-248 | the loop ticks every check box, so every loaded resource is in the content |
| LearningModule.MarkResources | Source/Microsoft.Teams.Apps.LearnNow/ClientApp/src/components/learning-module/learning-module.tsx:637-649 | the loop sets the check box of exactly the resources with the given id |
| LearningModule.CheckedResources | Source/Microsoft.Teams.Apps.LearnNow/ClientApp/src/components/learning-module/learning-module.tsx:653-658 | the loop collects exactly the checked resources, in list order |
| LearningModule.ModuleSubmitAllowedIff | Source/Microsoft.Teams.Apps.LearnNow/ClientApp/src/components/learning-module/learning-module.tsx:413-475 | a module may be submitted iff its title is present and held by no other module, its description is not blank, and grade and subject are set |
| LearningModule.LearningModuleForm.constructor | Source/Microsoft.Teams.Apps.LearnNow/ClientApp/src/components/learning-module/learning-module.tsx:81-112 | the initial state: an empty module, every flag valid, the content page showing, no resources |
| LearningModule.LearningModuleForm.ComponentDidMount | Source/Microsoft.Teams.Apps.LearnNow/ClientApp/src/components/learning-module/learning-module.tsx:131-135 | an edit request switches to edit mode and loads. Adding a resource to a new module locks grade and subject and loads. Any other request changes nothing |
| LearningModule.LearningModuleForm.GetLearningModuleDetail | Source/Microsoft.Teams.Apps.LearnNow/ClientApp/src/components/learning-module/learning-module.tsx:218-252 | with data, the form shows the stored module: trimmed title text, tag items, every resource checked and in the content, the next button enabled iff there is an image, grade and subject locked iff there is a resource. Without data, nothing changes |
| LearningModule.LearningModuleForm.ShowModule | Source/Microsoft.Teams.Apps.LearnNow/ClientApp/src/components/learning-module/learning-module.tsx:223-238 | the state updates for a loaded module, leaving the form valid |
| LearningModule.LearningModuleForm.ShowModuleWithTagIds | Source/Microsoft.Teams.Apps.LearnNow/ClientApp/src/components/learning-module/learning-module.tsx:218-252 | the corrected load: the form shows the stored module as `ShowModule` does, and the tag ids to save are the module's own tag ids, in order, in step with the selected tags |
| LearningModule.StoredTagsDroppedScenario | Source/Microsoft.Teams.Apps.LearnNow/ClientApp/src/components/learning-module/learning-module.tsx:225-239 | after a module with one tag is loaded for editing, the picker shows that tag while the tag ids an update would save are empty |
| LearningModule.LearningModuleForm.ShowResources | Source/Microsoft.Teams.Apps.LearnNow/ClientApp/src/components/learning-module/learning-module.tsx:240-248 | the loaded resources, all checked, are both the list and the content. Grade and subject are locked iff there is one |
| LearningModule.LearningModuleForm.HandleGradeChange | Source/Microsoft.Teams.Apps.LearnNow/ClientApp/src/components/learning-module/learning-module.tsx:298-307 | grade id and grade name come from the same item; with no item nothing changes |
| LearningModule.LearningModuleForm.HandleSubjectChange | Source/Microsoft.Teams.Apps.LearnNow/ClientApp/src/components/learning-module/learning-module.tsx:314-323 | the same for the subject |
| LearningModule.LearningModuleForm.HandleTagChange | Source/Microsoft.Teams.Apps.LearnNow/ClientApp/src/components/learning-module/learning-module.tsx:330-349 | a selection over the cap only raises the count error. Any other selection becomes the tags and the tag ids to save |
| LearningModule.LearningModuleForm.HandleTitleChange | Source/Microsoft.Teams.Apps.LearnNow/ClientApp/src/components/learning-module/learning-module.tsx:355-359 | the title is stored and only the title-taken error is cleared |
| LearningModule.LearningModuleForm.HandleDescriptionChange | Source/Microsoft.Teams.Apps.LearnNow/ClientApp/src/components/learning-module/learning-module.tsx:364-368 | the description is stored and its error is cleared |
| LearningModule.LearningModuleForm.HandleImageClick | Source/Microsoft.Teams.Apps.LearnNow/ClientApp/src/components/learning-module/learning-module.tsx:373-377 | the image is stored and the next button is enabled |
| LearningModule.LearningModuleForm.CheckIfSubmitAllowed | Source/Microsoft.Teams.Apps.LearnNow/ClientApp/src/components/learning-module/learning-module.tsx:413-456 | every flag is stored as the checks on the pre-state give it. The answer is their conjunction |
| LearningModule.LearningModuleForm.HandleContentNextButtonClick | Source/Microsoft.Teams.Apps.LearnNow/ClientApp/src/components/learning-module/learning-module.tsx:527-531 | the image page shows iff submit is allowed; otherwise the page does not change |
| LearningModule.LearningModuleForm.HandleImageNextButtonClick | Source/Microsoft.Teams.Apps.LearnNow/ClientApp/src/components/learning-module/learning-module.tsx:536-543 | the preview shows iff an image is chosen; otherwise the next button is disabled |
| LearningModule.LearningModuleForm.HandleImageBackButtonClick | Source/Microsoft.Teams.Apps.LearnNow/ClientApp/src/components/learning-module/learning-module.tsx:548-550 | back to the content page |
| LearningModule.LearningModuleForm.HandlePreviewBackButtonClick | Source/Microsoft.Teams.Apps.LearnNow/ClientApp/src/components/learning-module/learning-module.tsx:563-565 | back to the image page |
| LearningModule.LearningModuleForm.OnLearningModuleSelected | Source/Microsoft.Teams.Apps.LearnNow/ClientApp/src/components/learning-module/learning-module.tsx:630-660 | the check boxes of resources with the id take the new value. The content is rebuilt as exactly the checked resources. The selected id is remembered, or cleared on deselection |
| AddGrade.ErrorMessage | Source/Microsoft.Teams.Apps.LearnNow/ClientApp/src/components/configure-admin/add-grade.tsx:133-144 | at most one message shows. A missing name takes precedence over a taken name, which takes precedence over a generic failure |
| AddGrade.AddGradeForm.constructor | Source/Microsoft.Teams.Apps.LearnNow/ClientApp/src/components/configure-admin/add-grade.tsx:34-41 | an empty name and no message |
| AddGrade.AddGradeForm.OnGradeValueChange | Source/Microsoft.Teams.Apps.LearnNow/ClientApp/src/components/configure-admin/add-grade.tsx:50-52 | typing clears the missing-name and taken-name errors |
| AddGrade.AddGradeForm.CheckIfSubmitAllowed | Source/Microsoft.Teams.Apps.LearnNow/ClientApp/src/components/configure-admin/add-grade.tsx:64-71 | submit is allowed iff the name is not empty; otherwise the missing-name message shows |
| AddGrade.AddGradeForm.StartAdd | Source/Microsoft.Teams.Apps.LearnNow/ClientApp/src/components/configure-admin/add-grade.tsx:76-80 | the name is sent iff it is not empty, with the generic error cleared and the button busy |
| AddGrade.AddGradeForm.FinishAdd | Source/Microsoft.Teams.Apps.LearnNow/ClientApp/src/components/configure-admin/add-grade.tsx:80-88 | the form goes back iff the answer is 200 with data. A 409 raises the taken-name error. Anything else raises the generic error. The button is released unless the form goes back |
| AddGrade.AddGradeForm.OnAddButtonClick | Source/Microsoft.Teams.Apps.LearnNow/ClientApp/src/components/configure-admin/add-grade.tsx:76-89 | the whole click, with the whole new state on each branch. An empty name raises only the missing-name error. Success leaves the page with the button busy and the generic error cleared. A 409 ends with the taken-name message showing and the button released. Any other failure raises the generic error and releases the button |
| EditGrade.GetErrorMessage | Source/Microsoft.Teams.Apps.LearnNow/ClientApp/src/components/configure-admin/edit-grade.tsx:127-133 | a true first argument selects the taken-name message. Otherwise a true second argument selects the generic message. Otherwise nothing shows |
| EditGrade.EditGradeForm.constructor | Source/Microsoft.Teams.Apps.LearnNow/ClientApp/src/components/configure-admin/edit-grade.tsx:40-47 | loading, with an empty name and no error |
| EditGrade.EditGradeForm.GetGrade | Source/Microsoft.Teams.Apps.LearnNow/ClientApp/src/components/configure-admin/edit-grade.tsx:63-75 | the loader always goes away. The name is filled in only from a 200 with data |
| EditGrade.EditGradeForm.OnGradeValueChange | Source/Microsoft.Teams.Apps.LearnNow/ClientApp/src/components/configure-admin/edit-grade.tsx:81-83 | typing clears the missing-name and taken-name flags |
| EditGrade.EditGradeForm.CheckIfSubmitAllowed | Source/Microsoft.Teams.Apps.LearnNow/ClientApp/src/components/configure-admin/edit-grade.tsx:113-120 | submit is allowed iff the name is not empty; otherwise the missing-name flag is raised |
| EditGrade.EditGradeForm.StartUpdate | Source/Microsoft.Teams.Apps.LearnNow/ClientApp/src/components/configure-admin/edit-grade.tsx:95-99 | the grade (query id, current name) is sent iff the name is not empty, with the generic error cleared and the button busy |
| EditGrade.EditGradeForm.FinishUpdate | Source/Microsoft.Teams.Apps.LearnNow/ClientApp/src/components/configure-admin/edit-grade.tsx:100-106 | the form goes back iff the status is 200, whether or not there is data. A 409 raises the taken-name flag. Anything else raises the generic flag |
| EditGrade.EditGradeForm.OnUpdateButtonClick | Source/Microsoft.Teams.Apps.LearnNow/ClientApp/src/components/configure-admin/edit-grade.tsx:95-108 | the whole click, with the whole new state on each branch. An empty name raises only the missing-name flag. Any 200 leaves the page with the button busy and the generic flag cleared. A 409 raises the taken-name flag and releases the button. Any other status raises the generic flag and releases the button |
| EditGrade.EditGradeForm.RenderedError | Source/Microsoft.Teams.Apps.LearnNow/ClientApp/src/components/configure-admin/edit-grade.tsx:182 | the rendered error line never shows the taken-name message. It shows the generic message iff the generic flag is up |
| EditGrade.EditGradeForm.IntendedError | Source/Microsoft.Teams.Apps.LearnNow/ClientApp/src/components/configure-admin/edit-grade.tsx:121-133 | with the taken-name flag as first argument, the taken-name message shows iff the flag is up |
| EditGrade.DuplicateRenameScenario | Source/Microsoft.Teams.Apps.LearnNow/ClientApp/src/components/configure-admin/edit-grade.tsx:182 | after a rename that the server rejects with 409, the rendered line is empty, while the intended line shows the taken-name message |
| EditSubject.GetErrorMessage | Source/Microsoft.Teams.Apps.LearnNow/ClientApp/src/components/configure-admin/edit-subject.tsx:130-136 | a true first argument selects the taken-name message. Otherwise a true second argument selects the generic message. Otherwise nothing shows |
| EditSubject.EditSubjectForm.constructor | Source/Microsoft.Teams.Apps.LearnNow/ClientApp/src/components/configure-admin/edit-subject.tsx:41-48 | loading, with an empty name and no error |
| EditSubject.EditSubjectForm.GetSubject | Source/Microsoft.Teams.Apps.LearnNow/ClientApp/src/components/configure-admin/edit-subject.tsx:64-77 | the loader always goes away. The name is filled in only from a 200 with data |
| EditSubject.EditSubjectForm.OnSubjectValueChange | Source/Microsoft.Teams.Apps.LearnNow/ClientApp/src/components/configure-admin/edit-subject.tsx:83-85 | typing clears the missing-name and taken-name flags |
| EditSubject.EditSubjectForm.CheckIfSubmitAllowed | Source/Microsoft.Teams.Apps.LearnNow/ClientApp/src/components/configure-admin/edit-subject.tsx:115-123 | submit is allowed iff the name is not empty; otherwise the missing-name flag is raised |
| EditSubject.EditSubjectForm.StartUpdate | Source/Microsoft.Teams.Apps.LearnNow/ClientApp/src/components/configure-admin/edit-subject.tsx:97-101 | the subject (query id, current name) is sent iff the name is not empty, with the generic error cleared and the button busy |
| EditSubject.EditSubjectForm.FinishUpdate | Source/Microsoft.Teams.Apps.LearnNow/ClientApp/src/components/configure-admin/edit-subject.tsx:102-108 | the form goes back iff the status is 200. A 409 raises the taken-name flag. Anything else raises the generic flag |
| EditSubject.EditSubjectForm.OnUpdateButtonClick | Source/Microsoft.Teams.Apps.LearnNow/ClientApp/src/components/configure-admin/edit-subject.tsx:97-110 | the whole click, with the whole new state on each branch. An empty name raises only the missing-name flag. Any 200 leaves the page with the button busy and the generic flag cleared. A 409 raises the taken-name flag and releases the button. Any other status raises the generic flag and releases the button |
| EditSubject.EditSubjectForm.RenderedError | Source/Microsoft.Teams.Apps.LearnNow/ClientApp/src/components/configure-admin/edit-subject.tsx:185 | the rendered error line never shows the taken-name message. It shows the generic message iff the generic flag is up |
| EditSubject.EditSubjectForm.IntendedError | Source/Microsoft.Teams.Apps.LearnNow/ClientApp/src/components/configure-admin/edit-subject.tsx:125-136 | with the taken-name flag as first argument, the taken-name message shows iff the flag is up |
| EditSubject.DuplicateRenameScenario | Source/Microsoft.Teams.Apps.LearnNow/ClientApp/src/components/configure-admin/edit-subject.tsx:185 | after a rename that the server rejects with 409, the rendered line is empty, while the intended line shows the taken-name message |

## Left out

- Rendering (JSX, layout, localisation lookup, window resize) is not modelled. The error line of the grade and subject forms is modelled only as the message key it selects.
- Server calls, the Teams SDK and browser history are not modelled. The answer to an awaited call is a handler argument, and "go back" is a returned flag.
- The React `setState` batching and the interleaving of asynchronous handlers are not modelled. Each handler is one atomic update, applied after the answers it awaits.
- The query-string parsing is not modelled. The resource or module id and the request mode are constructor and handler arguments, and an absent id is "".
- `getResourceDetails` in the resource form (the edit-mode load of a stored resource and its tags) is not modelled. `ShowStoredAttachment` models only the part of it that shows a stored attachment.
- The module form's load when a resource is added to a new module (`getResourceDetail`) is not modelled. `ComponentDidMount` models only the mode switch it makes.
- The submit flows are not modelled: save, share, update, blob upload, the file picker and the file-size and file-format checks that call the two error setters. These are network calls and browser file handling.
- The drop-down data loads (grades, subjects, tags) are not modelled; the items arrive as handler arguments.
- `isNullorWhiteSpace` is in a helper file outside this model. Here it holds for a string made only of the characters JavaScript `trim()` removes, the empty string included. `null` and `undefined` string fields are stored as "".
- The URL pattern `Constants.urlValidationRegEx` is a predicate argument of the resource form, and `Resources.tagsMaxCount` is a constructor argument.
- Case folding covers ASCII letters only. Neither `toLowerCase()` nor .NET's ordinal ignore-case comparison is modelled for other scripts. For example, U+212A KELVIN SIGN is not treated as a "k".
- The validation flags of each form's state are kept in one datatype field, `validation`. Their meaning is unchanged.
- A title verdict the form has not decided yet (`undefined`) is stored as false. The form only ever tests it for falsity.
- The learning-module form shares resource objects between `filteredItem` and `filterItemEdit` and sets `checkItem` on them in place. The model keeps them as values. `Valid` states the relation the sharing maintains: the content list is the checked subsequence of the listed resources.
- A module loaded with a `null` resource list is treated as one with no resources.
- LearningModule.LearningModuleForm.ShowModuleWithTagIds: requires the stored module to carry no more tags than the cap. Any module saved through the tag picker meets that.
- The image search service is modelled on a list of URL strings. A `null` content URL and a `null` result list are not modelled; the service would throw on either.
- The `loader` field of the add-grade form is never set to true by the form. It is kept only as a field.

## Findings

| source | as written | input that shows it | evidently intended | confidence | as-written member | corrected member |
|---|---|---|---|---|---|---|
| Source/Microsoft.Teams.Apps.LearnNow/ClientApp/src/components/configure-admin/edit-grade.tsx:182 | the error line renders `getErrorMessage(false, this.state.errorMessage)`, so the taken-name branch can never be chosen | rename a grade to a name another grade has; the update answers 409 and sets `isGradeTitleExists`, but no message shows and the button is released | pass `this.state.isGradeTitleExists` as the first argument, as the function's doc comment says, so a 409 shows "gradeAlreadyExistsValidationMessage" | not executed; medium | EditGrade.DuplicateRenameScenario | EditGrade.EditGradeForm.IntendedError |
| Source/Microsoft.Teams.Apps.LearnNow/ClientApp/src/components/configure-admin/edit-subject.tsx:185 | the error line renders `getErrorMessage(false, this.state.showErrorMessage)`, so the taken-name branch can never be chosen | rename a subject to a name another subject has; the update answers 409 and sets `isSubjectTitleExists`, but no message shows | pass `this.state.isSubjectTitleExists` as the first argument, so a 409 shows "subjectAlreadyExistsValidationMessage" | not executed; medium | EditSubject.DuplicateRenameScenario | EditSubject.EditSubjectForm.IntendedError |
| Source/Microsoft.Teams.Apps.LearnNow/ClientApp/src/components/learning-module/learning-module.tsx:604 | an update sends `this.state.learningModuleTag` as the module's tags, but loading a stored module (lines 225-239) sets only `selectedTags` and leaves `learningModuleTag` at its initial `[]` (line 106) | edit a module that has tags, change only its description, and save; the picker showed the tags, but the update sends an empty tag list | set the tag ids to save from the stored tags when the module is loaded, so an edit that leaves the picker alone keeps the module's tags | not executed; medium | LearningModule.StoredTagsDroppedScenario | LearningModule.LearningModuleForm.ShowModuleWithTagIds |
