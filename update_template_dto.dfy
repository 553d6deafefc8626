/** The body of "update maintenance template"
    (maintenance-templates/dto/update-maintenance-template.dto.ts): every field
    optional, the same bounds as on creation, and no minimum size for `items`. */
module UpdateTemplateDto {
  import opened Common
  import opened CreateTemplateDto

  datatype UpdateTemplateInput = UpdateTemplateInput(
    name: Option<string>, description: Option<string>, intervalDays: Option<int>,
    isActive: Option<bool>, items: Option<seq<ItemInput>>)

  predicate ValidUpdate(d: UpdateTemplateInput) {
    AtMost(d.name, 120) && AtMost(d.description, 500) && PositiveIfGiven(d.intervalDays)
    && (d.items.Some? ==> AllItemsValid(d.items.value))
  }

  /** A creation body read as a patch that sets every field: every valid creation
      body is a valid patch, but not the other way round. */
  function AsUpdate(d: CreateTemplateInput): (u: UpdateTemplateInput)
    ensures ValidCreate(d) ==> ValidUpdate(u)
    ensures u.items == Some(d.items) && u.name == Some(d.name)
  {
    UpdateTemplateInput(Some(d.name), d.description, d.intervalDays, d.isActive, Some(d.items))
  }

  /** Unlike creation, a patch may carry an empty item list. */
  lemma EmptyItemsValid(d: UpdateTemplateInput)
    requires ValidUpdate(d)
    ensures ValidUpdate(d.(items := Some([])))
    ensures !ValidCreate(CreateTemplateInput(d.name.GetOr(""), d.description, d.intervalDays, d.isActive, []))
  {
  }

  /** The empty patch is valid. */
  lemma EmptyPatchValid()
    ensures ValidUpdate(UpdateTemplateInput(None, None, None, None, None))
  {
  }
}
