/** The typed form schema of src/types/form.types.ts. */
module FormTypes {
  import opened Wrappers
  import opened JsonValues

  /** Row identifiers; the store hands them out fresh, standing in for generated UUIDs. */
  type Id = nat

  /** The closed field-type enum. */
  datatype FieldType = Text | Number | Email | Select | Checkbox

  /** One field of a version's schema. */
  datatype FormField = FormField(
    key: string,
    labelText: string,  // the source's `label` (a reserved word here)
    fieldType: FieldType,
    required: bool,
    options: Option<seq<string>>)

  /** A version's schema: the ordered `fields` list. */
  type FormSchema = seq<FormField>

  /** A submission's answers: a JSON record keyed by field key. */
  type Answers = map<string, Json>
}
