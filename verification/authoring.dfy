/** Decisions shared by the two authoring forms (resources and learning
    modules): the title-uniqueness verdict, the drop-down item shape, the
    tag list built from a drop-down selection, and the three page flags. */
module Authoring {
  import opened Wrappers

  /** An item of a Fluent UI drop-down: `key` is the entity id, `header`
      the text shown. */
  datatype DropDownItem = DropDownItem(key: string, header: string)

  /** The tag ids of a tag selection, in selection order (one tag join row
      per selected item, carrying only its `tagId`). */
  function TagKeys(items: seq<DropDownItem>): (keys: seq<string>)
    ensures |keys| == |items|
    ensures forall i :: 0 <= i < |items| ==> keys[i] == items[i].key
  {
    if items == [] then [] else [items[0].key] + TagKeys(items[1..])
  }

  /** The verdict of `validateIfTitleExists` (resources) and
      `ValidateIfTitleExists` (learning modules). No request is made for an
      empty title and the verdict is then undefined (`None`). Otherwise the
      server answers with the ids of the records that already carry this
      title; `ownId` is the id taken from the query string. */
  function TitleCheck(title: string, isEditMode: bool, ownId: string,
                      sameTitled: Response<seq<string>>): (valid: Option<bool>)
    ensures valid.None? <==> title == ""
    // valid iff nobody else holds the title: no record at all, or in edit
    // mode only the record being edited
    ensures valid == Some(true) <==>
      && title != ""
      && sameTitled.status == StatusOk
      && sameTitled.data.Some?
      && (sameTitled.data.value == [] || (isEditMode && sameTitled.data.value == [ownId]))
    // a failed lookup never lets the title through
    ensures title != "" && (sameTitled.status != StatusOk || sameTitled.data.None?) ==> valid == Some(false)
  {
    if title == "" then None
    else if sameTitled.status == StatusOk && sameTitled.data.Some? then
      var records := sameTitled.data.value;
      if isEditMode && |records| == 1 then Some(records[0] == ownId)
      else Some(|records| == 0)
    else Some(false)
  }

  /** Exactly one of the content, image-selection and preview pages shows. */
  predicate ExactlyOnePage(isContentPage: bool, isImagePage: bool, isPreviewPage: bool) {
    || (isContentPage && !isImagePage && !isPreviewPage)
    || (!isContentPage && isImagePage && !isPreviewPage)
    || (!isContentPage && !isImagePage && isPreviewPage)
  }
}
