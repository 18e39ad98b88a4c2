/** The records the REST backend exchanges (`types/api.ts`): a form is named by
    `name` and identified by an optional `_id`. The name validator and the
    drag-and-drop hook work on these. */
module ApiTypes {
  import opened Wrappers

  datatype ApiFieldType = Text | Number | Email | Date | Checkbox | Select

  datatype ApiField = ApiField(name: string, fieldType: ApiFieldType, isRequired: bool)

  datatype ApiForm = ApiForm(
    id: Option<string>,
    name: string,
    isVisible: bool,
    isReadOnly: bool,
    fields: seq<ApiField>,
    createdAt: Option<string>,
    updatedAt: Option<string>)
}
