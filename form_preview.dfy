/**
 * Fill mode: the values typed into the form, kept in a map from field id, the
 * submitted flag that opens the summary, and the summary itself.
 */
module FormPreview {
  import opened Optional
  import Schema
  import opened FormField

  /** `formData[id] || ""`: the value handed to a field's input. */
  function ValueFor(data: map<string, Input>, id: string): (v: Input)
    ensures Truthy(v) || v == Str("")
    ensures id in data && Truthy(data[id]) ==> v == data[id]
    ensures !(id in data && Truthy(data[id])) ==> v == Str("")
  {
    if id in data && Truthy(data[id]) then data[id] else Str("")
  }

  /**
   * Every field receives a defined value, so a radio option without "=" (whose value
   * is undefined) is never shown checked, and a checkbox group receives either its
   * list or a falsy value read as no box checked.
   */
  lemma ValueForIsDefined(data: map<string, Input>, id: string)
    ensures ValueFor(data, id) != Undefined
    ensures !RadioChecked(ValueFor(data, id), None)
    ensures (id !in data || data[id].Arr? || !Truthy(data[id])) ==> IsListOrFalsy(ValueFor(data, id))
  {
  }

  /** `formData[id] || "—"`: the value column of the summary. */
  function Cell(data: map<string, Input>, id: string): (c: Input)
    ensures Truthy(c)
    ensures id in data && Truthy(data[id]) ==> c == data[id]
    ensures !(id in data && Truthy(data[id])) ==> c == Str("—")
  {
    if id in data && Truthy(data[id]) then data[id] else Str("—")
  }

  datatype SummaryRow = SummaryRow(labelText: string, cell: Input)

  /** The summary table: one row per field of the schema, in schema order. */
  function Summary(fields: seq<Schema.Field>, data: map<string, Input>): (rows: seq<SummaryRow>)
    ensures |rows| == |fields|
    ensures forall i :: 0 <= i < |rows| ==> rows[i] == SummaryRow(fields[i].labelText, Cell(data, fields[i].id))
  {
    seq(|fields|, i requires 0 <= i < |fields| => SummaryRow(fields[i].labelText, Cell(data, fields[i].id)))
  }

  /**
   * A summary cell always holds a truthy value: a falsy entry (missing, `""`, `false`)
   * becomes "—", and any other entry is handed to the cell unchanged.
   */
  lemma SummaryShowsValueOrDash(fields: seq<Schema.Field>, data: map<string, Input>, i: nat)
    requires i < |fields|
    ensures var c := Summary(fields, data)[i].cell;
      && Truthy(c)
      && (c == Str("—") || (fields[i].id in data && c == data[fields[i].id]))
  {
  }

  /** Before anything is typed, every row shows "—". */
  lemma EmptyFormSummary(fields: seq<Schema.Field>)
    ensures forall i :: 0 <= i < |fields| ==> Summary(fields, map[])[i].cell == Str("—")
  {
  }

  /**
   * Typing into one field changes the summary rows of the fields with that id only,
   * which then show the new value (or "—" when it is falsy).
   */
  lemma SummaryAfterInput(fields: seq<Schema.Field>, data: map<string, Input>, id: string, v: Input, i: nat)
    requires i < |fields|
    ensures var before, after := Summary(fields, data)[i], Summary(fields, data[id := v])[i];
      && after.labelText == before.labelText
      && (fields[i].id == id ==> after.cell == if Truthy(v) then v else Str("—"))
      && (fields[i].id != id ==> after == before)
  {
  }

  /** The heading of the summary: `successMessage || "Form Submitted Successfully!"`. */
  function Heading(s: Schema.FormSchema): (h: string)
    ensures h != ""
    ensures s.successMessage != "" ==> h == s.successMessage
    ensures s.successMessage == "" ==> h == "Form Submitted Successfully!"
  {
    if s.successMessage != "" then s.successMessage else "Form Submitted Successfully!"
  }

  /** The fill-mode form for one schema. */
  class Preview {
    const schema: Schema.FormSchema
    var formData: map<string, Input>
    var submitted: bool

    constructor (schema: Schema.FormSchema)
      ensures this.schema == schema && formData == map[] && !submitted
    {
      this.schema := schema;
      formData := map[];
      submitted := false;
    }

    /** `handleInputChange(id, value)`: only the entry under `id` changes. */
    method HandleInputChange(id: string, value: Input)
      modifies this`formData
      ensures formData == old(formData)[id := value]
    {
      formData := formData[id := value];
    }

    /** `handleFormSubmit`: the summary opens; the values stay. */
    method HandleFormSubmit()
      modifies this`submitted
      ensures submitted
    {
      submitted := true;
    }

    /** `closeModal`: the summary closes; the values stay. */
    method CloseModal()
      modifies this`submitted
      ensures !submitted
    {
      submitted := false;
    }
  }
}
