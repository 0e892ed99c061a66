# Form builder: a Dafny model

The system is a drag-and-drop form editor. The user drags field kinds from a palette onto a
canvas. Each drop places a default field record in the form schema, which is an ordered list of
fields plus the form's name and success message. Each field has a hover toolbar for settings,
duplicate and delete. Fields can be dragged to new places on the canvas. A settings panel edits
a copy of one field and saves it back. A header toggles between edit and preview mode and clears
the canvas. In preview mode the form can be filled in and submitted, which opens a summary of the
values entered.

The model follows the components' own structure:

- `Optional`, `Arrays`, `Strings`: the JavaScript built-ins the components rely on.
  - Optional values.
  - `splice` insertion and removal, with a start past the end clamped to the end.
  - `filter` and `findIndex`.
  - `split` and `join` with a one-character separator, and `trim` with the ECMAScript whitespace set.
- `FieldKinds`: the nine field kinds and their type strings.
- `Schema`: the field record. Its optional keys `placeholder`, `options` and `content` are
  `Option`s. The module also has the form schema and key-by-key access to the keys the settings
  panel edits.
- `SchemaOps`: the pure list operations of the builder: lookup by id, duplicate, delete, save
  (replace by id) and the reorder splice.
- `FormField`: how a field renders its input:
  - the `Label=value` option codec;
  - checkbox and radio "checked" rules;
  - the checkbox `onChange`;
  - the first checkbox's `required` rule;
  - select entries;
  - label asterisks.
- `Settings`: the options textarea codec, the editors shown per kind, and the panel (class
  `Panel`) whose buffer is edited in place.
- `FormPreview`: the value handed to each input, the submit summary, and the fill-mode state
  (class `Preview`).
- `FormHeader`: the clear-canvas updater and the toggle.
- `FormBuilder`: the default field per kind, and the editing session (class `Builder`), whose
  methods are the source's handlers and drop-zone callbacks.

The session keeps one invariant, `Builder.Valid`: no two fields share an id. Every handler
preserves it.

Randomness is modelled as parameters. The ids and name suffixes the source draws from
`Math.random` are passed in, and handlers that insert a field require the new id to be fresh.

## Model

| member | source | states |
|---|---|---|
| `Arrays.Clamp` | src/component/FormBuilder.jsx:94 | the start `splice` uses: the given start, or the length when the start lies past the end |
| `Arrays.InsertAt` | src/component/FormBuilder.jsx:93-95 | `splice(start, 0, x)`: one longer; `x` at the clamped start; the prefix kept; the suffix shifted by one; multiset grows by exactly `x` |
| `Arrays.RemoveAt` | src/component/FormBuilder.jsx:116 | `splice(start, 1)`: one shorter; prefix kept; suffix shifted back; multiset loses exactly the removed element |
| `Arrays.RemoveInserted` | src/component/FormBuilder.jsx:116-117 | removing at the clamped start what was just inserted gives the sequence back |
| `Arrays.Filter` | src/component/FormBuilder.jsx:76 | `filter(p)`: never longer, and every element kept satisfies `p` |
| `Arrays.FilterMembers` | src/component/FormBuilder.jsx:76 | an element is in the filtered sequence iff it is in the input and satisfies `p` |
| `Arrays.FilterConcat` | src/component/Settings.jsx:28 | filtering distributes over concatenation |
| `Arrays.FilterKeepsAll` | src/component/FormField.jsx:84 | when every element passes, filtering returns the input unchanged |
| `Arrays.FilterDropsOne` | src/component/FormBuilder.jsx:76 | filtering `a + [x] + b`, where only `x` fails, gives `a + b` |
| `Arrays.FilterLength` | src/component/FormBuilder.jsx:76 | the filtered length is the number of elements that pass |
| `Arrays.FindIndex` | src/component/FormBuilder.jsx:56 | `findIndex`: -1 iff no element matches, otherwise the first matching index |
| `Strings.Split` | src/component/FormField.jsx:57 | `split(sep)` yields at least one part, and no part holds the separator |
| `Strings.SplitHead` | src/component/FormField.jsx:57 | the first part is the prefix before the first separator (the whole text when there is none); the other parts are the split of the text after it |
| `Strings.SplitNoSeparator` | src/component/FormField.jsx:71 | a text without the separator splits into itself alone |
| `Strings.SplitAtSeparator` | src/component/FormField.jsx:101 | a separator-free prefix followed by the separator becomes the first part |
| `Strings.SplitConcat` | src/component/Settings.jsx:28 | splitting `a + sep + b` is the split of `a` followed by the split of `b` |
| `Strings.JoinSplit` | src/component/Settings.jsx:28 | joining a split with the same separator restores the text |
| `Strings.SplitJoin` | src/component/Settings.jsx:145 | splitting the join of non-empty, separator-free parts gives the parts back |
| `Strings.Join` | src/component/Settings.jsx:145 | `join(sep)`: no parts give the empty text; otherwise the text starts with the first part |
| `Strings.TrimStart` | src/component/Settings.jsx:28 | the leading whitespace is removed: the result is a suffix of the text, everything before it is whitespace, it is empty exactly when the text is blank, and otherwise starts with a non-whitespace character |
| `Strings.TrimEnd` | src/component/Settings.jsx:28 | the trailing whitespace is removed: the result is a prefix of the text, everything after it is whitespace, it is empty exactly when the text is blank, and otherwise ends with a non-whitespace character |
| `Strings.Trim` | src/component/Settings.jsx:28 | `trim()` is a slice of the line with only whitespace before and after it; it is falsy exactly when the line is all whitespace, and otherwise starts and ends with a non-whitespace character |
| `Strings.CoreOfTrims` | src/component/Settings.jsx:28 | whitespace dropped from the front and then from the back leaves a slice of the text with only whitespace around it |
| `FieldKinds.TypeNameInjective` | src/constants/FieldConstants.jsx:25-35 | no two kinds share a type string |
| `Schema.Set` | src/component/Settings.jsx:24 | `{ ...prev, [key]: value }`: the key reads back the new value; every other key, the id and the kind are unchanged |
| `Schema.FieldExtensionality` | src/component/Settings.jsx:21 | a record is determined by its id, its kind and its editable keys |
| `SchemaOps.IndexOf` | src/component/FormBuilder.jsx:56 | the first field with the id, or -1 iff no field carries it |
| `SchemaOps.InsertKeepsUniqueIds` | src/component/FormBuilder.jsx:94 | inserting a field with a fresh id keeps ids unique |
| `SchemaOps.RemoveAtKeepsUniqueIds` | src/component/FormBuilder.jsx:116 | removing one position keeps ids unique, and its id is gone |
| `SchemaOps.Remove` | src/component/FormBuilder.jsx:73-77 | delete: no field with the id is left; the list never grows |
| `SchemaOps.RemoveKeepsOthers` | src/component/FormBuilder.jsx:76 | delete keeps exactly the fields with other ids |
| `SchemaOps.RemoveAbsent` | src/component/FormBuilder.jsx:76 | deleting an id no field has changes nothing |
| `SchemaOps.RemovePresent` | src/component/FormBuilder.jsx:73-77 | with unique ids, delete removes exactly the one position carrying the id |
| `SchemaOps.RemoveKeepsUniqueIds` | src/component/FormBuilder.jsx:73-77 | delete keeps ids unique |
| `SchemaOps.CopyAttributes` | src/component/FormBuilder.jsx:64-68 | the copy has the new id and `name + "_copy"`; every other key and the kind are the original's |
| `SchemaOps.Duplicate` | src/component/FormBuilder.jsx:63-71 | the copy sits right after the first field with the id; the fields before and after are unchanged |
| `SchemaOps.DuplicateThenRemove` | src/component/FormBuilder.jsx:63-77 | deleting the copy (by its fresh id) undoes the duplicate |
| `SchemaOps.DuplicateKeepsUniqueIds` | src/component/FormBuilder.jsx:63-71 | duplicating under a fresh id keeps ids unique |
| `SchemaOps.Replace` | src/component/FormBuilder.jsx:102-109 | save: same length, and the ids at each position are unchanged; fields with the saved id become the saved record; the rest are unchanged |
| `SchemaOps.ReplaceAbsent` | src/component/FormBuilder.jsx:105-107 | saving a record whose id no field has changes nothing |
| `SchemaOps.ReplaceKeepsUniqueIds` | src/component/FormBuilder.jsx:102-109 | save keeps ids unique and keeps the set of present ids |
| `SchemaOps.ReplaceIdempotent` | src/component/FormBuilder.jsx:102-109 | saving the same record twice is saving it once |
| `SchemaOps.ReplaceWithItself` | src/component/FormBuilder.jsx:102-109 | with unique ids, saving a field unedited changes nothing |
| `SchemaOps.Reorder` | src/component/FormBuilder.jsx:111-119 | a reorder never adds, drops or duplicates a field: it permutes the list |
| `SchemaOps.ReorderAdjacentIsNoOp` | src/component/FormBuilder.jsx:112 | dropping into the gap just above or just below the dragged field changes nothing |
| `SchemaOps.ReorderMoves` | src/component/FormBuilder.jsx:111-120 | any other move is a permutation; the moved field lands at the gap index, clamped to the last position; the other fields keep their order |
| `SchemaOps.ReorderUpward` | src/component/FormBuilder.jsx:114-119 | an upward move places the field exactly in the target gap |
| `SchemaOps.ReorderDownwardLandsAfterTarget` | src/component/FormBuilder.jsx:116-117 | a downward move to a gap between fields lands one place past it, after the field that was below that gap |
| `SchemaOps.ReorderLastGaps` | src/component/FormBuilder.jsx:236-240 | the bottom zone and the gap above the last field reorder the same way, except for the field just above the last one |
| `SchemaOps.ReorderKeepsUniqueIds` | src/component/FormBuilder.jsx:111-120 | reorder keeps ids unique |
| `FormField.ParseOption` | src/component/FormField.jsx:57 | `[label, value] = option.split("=")`: neither part holds "="; the value is undefined exactly when the option has no "="; otherwise `label=value` is the option's prefix, ending at the end or at the next "=", so any further parts are dropped |
| `FormField.ParseEncodedOption` | src/component/FormField.jsx:57 | an option written `label=value` with no other "=" decodes to that label and value |
| `FormField.TextOr` | src/component/FormField.jsx:55 | the text shown in place of an optional one: the text when it is present and non-empty, otherwise the fallback |
| `FormField.SelectChoices` | src/component/FormField.jsx:55-63 | a select shows an empty-valued placeholder entry first (default "Select an option"), then one decoded entry per option, in order |
| `FormField.CheckboxChange` | src/component/FormField.jsx:80-86 | checking passes a list one longer; unchecking passes a list no longer than before |
| `FormField.CheckAppends` | src/component/FormField.jsx:82 | checking a box keeps the earlier values in order, appends the box's value, and leaves it checked |
| `FormField.UncheckRemoves` | src/component/FormField.jsx:84 | unchecking removes every occurrence of the box's value and keeps exactly the other values; a value that was not there leaves the list as it was |
| `FormField.CheckedAfterChange` | src/component/FormField.jsx:79-86 | after a box's change, `Array.isArray(value) && value.includes(val)` shows it checked exactly when it was checked; every other box keeps its state |
| `FormField.RadioChoiceChecks` | src/component/FormField.jsx:109-110 | once an option is chosen, `value === val` checks the buttons with that value and no other, never one without "=" |
| `FormField.RequiredIffNothingChecked` | src/component/FormField.jsx:88 | `required && idx === 0 && !value?.length`: only the first box of a required group carries `required`, and only while no box is checked |
| `FormField.CheckingLiftsRequired` | src/component/FormField.jsx:88 | after any box is checked, the first box is no longer required |
| `FormField.UncheckingLastRestoresRequired` | src/component/FormField.jsx:88 | unchecking the only checked value makes the first box required again exactly when the field is |
| `FormField.OneAsteriskIffRequired` | src/component/FormField.jsx:218-222 | a field shows exactly one asterisk when required and none otherwise; an acceptance field has a blank label without asterisk and shows its asterisk after the content (FormField.jsx:138) |
| `Settings.ParseOptions` | src/component/Settings.jsx:27-30 | no option read from the textarea is blank |
| `Settings.ParseOneLine` | src/component/Settings.jsx:28 | a single line is kept verbatim, untrimmed, unless it is blank |
| `Settings.ParseLines` | src/component/Settings.jsx:28 | the textarea is read line by line, in order |
| `Settings.ParsedOptionsAreLines` | src/component/Settings.jsx:28 | an option is read iff it is a non-blank line of the textarea; no option holds a line break |
| `Settings.DisplayParseRoundTrip` | src/component/Settings.jsx:145 | options that are non-blank and hold no line break survive being shown in the textarea and read back |
| `Settings.ParseDisplayParse` | src/component/Settings.jsx:28 | re-showing what was just read and reading it again changes nothing |
| `Settings.DisplayOptions` | src/component/Settings.jsx:145 | `options?.join("\n") \|\| ""`: no options show an empty textarea; otherwise the text starts with the first option |
| `Settings.ApplyEdits` | src/component/Settings.jsx:58-175 | a series of edits made through the editors shown for the field's kind keeps the kind |
| `Settings.EditsStayReachable` | src/component/Settings.jsx:58-175 | after any series of edits through the shown editors, the buffer keeps the id and kind, every key whose editor is hidden for the kind (label for acceptance, placeholder outside text, email and select, options outside the choice kinds, content outside acceptance) keeps its value, and the width is the original or one of the four listed |
| `Settings.StepStaysReachable` | src/component/Settings.jsx:58-175 | the same for one edit |
| `Settings.Panel.constructor` | src/component/Settings.jsx:21 | the buffer starts as a copy of the field |
| `Settings.Panel.HandleChange` | src/component/Settings.jsx:23-25 | as called by an editor the kind shows (a listed width for the selector): the buffer gets the value under the key and stays reachable from the field |
| `Settings.Panel.HandleOptionsChange` | src/component/Settings.jsx:27-30 | for a kind with the options editor, the buffer's options become the non-blank lines of the textarea |
| `Settings.Panel.HandleSave` | src/component/Settings.jsx:32-35 | the buffer is the saved record: the id and kind of the field the panel was opened on, every hidden key as it was, and a listed width when the field had one |
| `FormPreview.ValueFor` | src/component/FormPreview.jsx:33 | `formData[id] \|\| ""`: the stored value when it is truthy, otherwise exactly the empty string |
| `FormPreview.ValueForIsDefined` | src/component/FormPreview.jsx:33 | an input never receives undefined, so a radio option without "=" is never shown checked, and a checkbox group receives its list or a falsy value |
| `FormPreview.Cell` | src/component/FormPreview.jsx:80 | `formData[id] \|\| "—"`: the stored value when truthy, otherwise exactly "—"; never falsy |
| `FormPreview.Summary` | src/component/FormPreview.jsx:74-82 | one row per field, in schema order, with its label and its value or "—" |
| `FormPreview.SummaryShowsValueOrDash` | src/component/FormPreview.jsx:80 | a summary cell always holds a truthy value: the stored entry or "—" |
| `FormPreview.EmptyFormSummary` | src/component/FormPreview.jsx:80 | before any input, every row shows "—" |
| `FormPreview.SummaryAfterInput` | src/component/FormPreview.jsx:8-13 | typing into a field changes only the rows with its id, which then show the new value (or "—" when it is falsy) |
| `FormPreview.Heading` | src/component/FormPreview.jsx:59 | the heading is never empty: the success message when it is non-empty, otherwise exactly "Form Submitted Successfully!" |
| `FormPreview.Preview.constructor` | src/component/FormPreview.jsx:5-6 | no values and no summary at first |
| `FormPreview.Preview.HandleInputChange` | src/component/FormPreview.jsx:8-13 | `{ ...prev, [id]: value }`: the value is stored under the field's id, and the map is otherwise the old one |
| `FormPreview.Preview.HandleFormSubmit` | src/component/FormPreview.jsx:15-18 | the summary opens |
| `FormPreview.Preview.CloseModal` | src/component/FormPreview.jsx:20-22 | the summary closes |
| `FormHeader.ClearCanvas` | src/component/FormHeader.jsx:44-46 | no fields remain; the name and success message are kept |
| `FormHeader.ClearIdempotent` | src/component/FormHeader.jsx:44-46 | clearing leaves a form for which `isFormEmpty` (FormBuilder.jsx:141) holds; clearing twice is clearing once; clearing an empty form changes nothing |
| `FormHeader.ToggleLabel` | src/component/FormHeader.jsx:38 | the toggle reads "Edit" exactly in preview mode and "Preview" exactly in edit mode |
| `FormBuilder.DefaultFieldFitsEditors` | src/component/FormBuilder.jsx:15-44 | a new field has a width the selector offers and is a buffer the settings panel can start from; it has the two default options exactly for the kinds with an options editor, the agreement content exactly for acceptance, and `Enter <type>` as placeholder exactly for text and email (a select has the editor but no default placeholder); date, time and file get the common keys only |
| `FormBuilder.DefaultOptionsDecode` | src/component/FormBuilder.jsx:34 | the two default options decode to `Option 1`/`option1` and `Option 2`/`option2` |
| `FormBuilder.DefaultSelectChoices` | src/component/FormBuilder.jsx:29-35 | a new select offers "Select an option" and the two default options |
| `FormBuilder.DefaultField` | src/component/FormBuilder.jsx:15-44 | the common keys of every new field: the dropped kind, the given id, label `New <type> field`, name `field_<suffix>`, optional, width "100%" |
| `FormBuilder.FieldWithId` | src/component/FormBuilder.jsx:56-57 | the looked-up field exists iff some field has the id, and is then the first such field |
| `FormBuilder.DropThenDelete` | src/component/FormBuilder.jsx:86-100 | a palette drop under a fresh id keeps ids unique; the new field is found at its (clamped) gap; deleting it gives the fields back |
| `FormBuilder.Builder.constructor` | src/component/FormBuilder.jsx:47-53 | edit mode on the initial schema with every session slot empty |
| `FormBuilder.Builder.HandleFieldAction` | src/component/FormBuilder.jsx:55-80 | settings selects the field with the id (none when absent); duplicate and delete update the fields as `Duplicate`/`Remove`; ids stay unique |
| `FormBuilder.Builder.HandleDragStart` | src/component/FormBuilder.jsx:82-84 | the dragged kind is recorded |
| `FormBuilder.Builder.HandleDrop` | src/component/FormBuilder.jsx:86-100 | without a dragged kind nothing changes; otherwise the default field is inserted at the gap and the dragged kind and ghost gap are cleared; ids stay unique |
| `FormBuilder.Builder.HandleFieldSave` | src/component/FormBuilder.jsx:102-109 | the fields become `Replace(fields, updated)`; ids stay unique |
| `FormBuilder.Builder.HandleFieldReorder` | src/component/FormBuilder.jsx:111-120 | the fields become `Reorder(fields, from, to)`; ids stay unique |
| `FormBuilder.Builder.HandleFieldDragStart` | src/component/FormBuilder.jsx:122-124 | the dragged canvas index is recorded |
| `FormBuilder.Builder.HandleFieldDragEnd` | src/component/FormBuilder.jsx:126-128 | the dragged canvas index is cleared |
| `FormBuilder.Builder.GapDragOver` | src/component/FormBuilder.jsx:180-186 | the ghost moves to the gap during a palette drag only |
| `FormBuilder.Builder.GapDrop` | src/component/FormBuilder.jsx:187-194 | a canvas drag reorders to the gap and leaves the drag slots as they were; otherwise it acts as `HandleDrop` at the gap |
| `FormBuilder.Builder.DragLeave` | src/component/FormBuilder.jsx:195-197 | the ghost is hidden |
| `FormBuilder.Builder.BottomDragOver` | src/component/FormBuilder.jsx:228-232 | the ghost moves past the last field, for either kind of drag |
| `FormBuilder.Builder.BottomDrop` | src/component/FormBuilder.jsx:233-246 | a canvas drag reorders to gap `fields.length` and ends; a palette drag appends the default field; the ghost is hidden either way |
| `FormBuilder.Builder.CanvasDragOver` | src/component/FormBuilder.jsx:152-155 | the ghost moves to gap 0 of the empty canvas |
| `FormBuilder.Builder.CloseSettings` | src/component/FormBuilder.jsx:273 | the settings panel closes |
| `FormBuilder.Builder.SaveSettings` | src/component/FormBuilder.jsx:270-275 | the saved record replaces the field with its id, then the panel closes |
| `FormBuilder.Builder.PressPreviewToggle` | src/component/FormHeader.jsx:17-22 | on an empty form (`isFormEmpty`, FormBuilder.jsx:141) the disabled toggle changes nothing; otherwise the mode flips and so does the toggle's label |
| `FormBuilder.Builder.PressClear` | src/component/FormHeader.jsx:41-47 | in edit mode only, the fields are cleared; ids stay unique |

## Left out

- Rendering is not modelled: JSX markup, styling, icons, the hover toolbar's visibility, the
  grip handle, and the ghost preview drawn at the drop gap. The model keeps the state that
  decides these: `dropIndex`, `draggedFieldIndex` and `isPreview`.
- `generateId` (`Math.random`) is not modelled. Ids and name suffixes are parameters, and
  inserting handlers require a fresh id. The source only has a high probability of freshness.
- The settings panel's click-outside listener is not modelled; it is a DOM event subscription.
  Closing the panel is modelled by `Builder.CloseSettings`.
- DOMPurify sanitising of acceptance content is not modelled. It is a foreign library, and the
  model treats the content as an opaque string.
- The `e.target.value` of a select option or radio without a value attribute is not modelled.
  Nor is the file input's `files?.[0].name`. Both come from the DOM.
- React's batching of state updates is not modelled. Each handler is one atomic step on the
  state, and updater functions read the same state as the handler.
- The `splice` calls operate on a fresh copy of the field array, which nothing else can see.
  They are modelled as operations on sequence values (`Arrays.InsertAt`, `Arrays.RemoveAt`),
  with no array updated in place.
- FormField.UncheckRemoves: states which values remain, not their order. The order is kept by
  the definition of `Arrays.Filter` and stated as `Arrays.FilterConcat`.
- Negative `splice` starts are not modelled: indices are `nat`. A gap or field index is never
  negative in the source.
- Wiring defects outside the modelled logic are not modelled:
  - FormPreview.jsx imports `FormField` from the builder module, which does not export it.
  - FormHeader.jsx:21 calls `setSubmitted`, which the builder never passes. The call runs after
    the mode update is queued.
  - `Builder.PressPreviewToggle` models the mode flip only.
- The initial schema file is not part of this model. The session starts from any schema with
  unique ids.
- A missing `successMessage` is modelled as the empty string. Both are falsy where the source
  reads them.
- A palette drag and a canvas drag can both be recorded at once. Sidebar.jsx has no drag-end
  handler, so a cancelled palette drag never clears `draggedFieldType`. The model follows the
  code, so both slots can be set at once. A gap drop then prefers the reorder.
- `Builder` does not keep `draggedFieldIndex` within the field count as an invariant. The source
  does not keep it either: a delete during a drag could leave it stale. The reorder drop
  handlers require it instead, as every dragged index comes from a rendered field.
- The downward reorder lands one gap past the target (`SchemaOps.ReorderDownwardLandsAfterTarget`).
  This is modelled as written and stated as a lemma. It is not corrected, because the handler is
  the source's only reorder.
- FormPreview.SummaryShowsValueOrDash: states the value handed to the cell, not the text shown.
  React renders `true` as nothing, an array by its items, and an `undefined` item (a checkbox
  option without "=") as nothing. So an acceptance flag `true`, the `[]` left after unchecking
  every box, or a list of undefined items displays blank although the value is truthy.
  Rendering is not modelled.
- Settings.Panel.HandleChange: requires what its callers pass. The panel calls `handleChange`
  only from the editors it renders for the field's kind (Settings.jsx:58-175), and the width
  selector only offers the four listed widths. Calls with other keys do not occur in the source.
