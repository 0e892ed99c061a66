/**
 * The form schema: an ordered sequence of field records plus the form's metadata.
 * A field record is a JavaScript object whose optional keys (`placeholder`,
 * `options`, `content`) are present only for some kinds.
 */
module Schema {
  import opened Optional
  import opened FieldKinds

  datatype Field = Field(
    id: string,
    kind: Kind,
    labelText: string,  // the `label` key
    name: string,
    required: bool,
    columnWidth: string,
    placeholder: Option<string>,
    options: Option<seq<string>>,
    content: Option<string>)

  /** The form being edited; a missing `successMessage` is the empty string. */
  datatype FormSchema = FormSchema(name: string, successMessage: string, fields: seq<Field>)

  /** The keys the settings panel edits on its copy of a field. */
  datatype Attr = Label | Name | Required | ColumnWidth | Placeholder | Options | Content

  /** The value under a key of a field record; `Absent` when the key is missing. */
  datatype AttrValue = Absent | StrValue(s: string) | BoolValue(b: bool) | Lines(lines: seq<string>)

  function Get(f: Field, a: Attr): AttrValue
  {
    match a
    case Label => StrValue(f.labelText)
    case Name => StrValue(f.name)
    case Required => BoolValue(f.required)
    case ColumnWidth => StrValue(f.columnWidth)
    case Placeholder => if f.placeholder.Some? then StrValue(f.placeholder.value) else Absent
    case Options => if f.options.Some? then Lines(f.options.value) else Absent
    case Content => if f.content.Some? then StrValue(f.content.value) else Absent
  }

  /** The value the settings panel stores under each key: a string, a flag or a list of lines. */
  predicate Fits(a: Attr, v: AttrValue)
  {
    match a
    case Required => v.BoolValue?
    case Options => v.Lines?
    case _ => v.StrValue?
  }

  /** `{ ...f, [a]: v }`: the value under `a` becomes `v` and nothing else changes. */
  function Set(f: Field, a: Attr, v: AttrValue): (r: Field)
    requires Fits(a, v)
    ensures Get(r, a) == v
    ensures forall b :: b != a ==> Get(r, b) == Get(f, b)
    ensures r.id == f.id && r.kind == f.kind
  {
    match a
    case Label => f.(labelText := v.s)
    case Name => f.(name := v.s)
    case Required => f.(required := v.b)
    case ColumnWidth => f.(columnWidth := v.s)
    case Placeholder => f.(placeholder := Some(v.s))
    case Options => f.(options := Some(v.lines))
    case Content => f.(content := Some(v.s))
  }

  /** Two fields that agree on their id, their kind and every editable key are the same record. */
  lemma FieldExtensionality(f: Field, g: Field)
    requires f.id == g.id && f.kind == g.kind
    requires forall a :: Get(f, a) == Get(g, a)
    ensures f == g
  {
    assert Get(f, Label) == Get(g, Label) && Get(f, Name) == Get(g, Name);
    assert Get(f, Required) == Get(g, Required) && Get(f, ColumnWidth) == Get(g, ColumnWidth);
    assert Get(f, Placeholder) == Get(g, Placeholder) && Get(f, Options) == Get(g, Options);
    assert Get(f, Content) == Get(g, Content);
  }

  /** Some field of the sequence carries the id. */
  predicate Present(fields: seq<Field>, id: string)
  {
    exists i :: 0 <= i < |fields| && fields[i].id == id
  }

  /** No two fields of the sequence share an id. */
  predicate UniqueIds(fields: seq<Field>)
  {
    forall i, j :: 0 <= i < j < |fields| ==> fields[i].id != fields[j].id
  }
}
