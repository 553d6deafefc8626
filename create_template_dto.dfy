/** The body of "create maintenance template"
    (maintenance-templates/dto/create-maintenance-template.dto.ts) and the bounds
    its class-validator decorators declare. The application registers no
    validation pipe, so these bounds are a predicate over the input, not a
    precondition of the service. */
module CreateTemplateDto {
  import opened Common
  import opened Store

  /** One checklist item of the request; `options` is free JSON, carried as text. */
  datatype ItemInput = ItemInput(
    itemLabel: string, itemType: ItemType, required: Option<bool>, sortOrder: Option<int>,
    unit: Option<string>, hint: Option<string>, options: Option<string>)

  datatype CreateTemplateInput = CreateTemplateInput(
    name: string, description: Option<string>, intervalDays: Option<int>,
    isActive: Option<bool>, items: seq<ItemInput>)

  /** `@IsOptional() @MaxLength(n)`: absent, or at most `n` characters. */
  predicate AtMost(s: Option<string>, n: nat) {
    s.None? || |s.value| <= n
  }

  /** `@IsOptional() @IsInt() @Min(1)`: absent, or a positive integer. */
  predicate PositiveIfGiven(v: Option<int>) {
    v.None? || v.value >= 1
  }

  /** The item bounds: label up to 200 characters, a positive sort order when
      given, unit up to 50 and hint up to 250 characters (the type is one of the
      four item kinds by construction). */
  predicate ValidItem(it: ItemInput) {
    |it.itemLabel| <= 200 && PositiveIfGiven(it.sortOrder) && AtMost(it.unit, 50) && AtMost(it.hint, 250)
  }

  predicate AllItemsValid(items: seq<ItemInput>) {
    forall i :: 0 <= i < |items| ==> ValidItem(items[i])
  }

  /** The template bounds: name up to 120 characters, description up to 500, a
      positive interval when given, and at least one item, each valid. */
  predicate ValidCreate(d: CreateTemplateInput) {
    |d.name| <= 120 && AtMost(d.description, 500) && PositiveIfGiven(d.intervalDays)
    && |d.items| >= 1 && AllItemsValid(d.items)
  }

  /** `@ArrayMinSize(1)`: a request without items is never valid. */
  lemma NoItemsInvalid(d: CreateTemplateInput)
    requires d.items == []
    ensures !ValidCreate(d)
  {
  }
}
