/**
 * The builder: the default record a palette drop creates, and the editing session
 * that owns the schema and the drag-and-drop, settings and mode state.
 */
module FormBuilder {
  import opened Optional
  import opened Arrays
  import opened FieldKinds
  import opened Schema
  import opened SchemaOps
  import opened Settings
  import FormField
  import FormHeader

  // ---------------------------------------------------------------- default fields

  /** The two options every choice kind starts with. */
  const DefaultOptions: seq<string> := ["Option 1=option1", "Option 2=option2"]

  /** The content an acceptance field starts with. */
  const AgreeContent: string := "<p><strong>I agree to the terms</strong></p>"

  /**
   * `getDefaultField(type)`: the common keys, plus a placeholder for text and email,
   * the two default options for the choice kinds, and the agreement text for
   * acceptance. `id` and `nameSuffix` stand for the two `generateId()` calls.
   */
  function DefaultField(kind: Kind, id: string, nameSuffix: string): (f: Field)
    ensures f.id == id && f.kind == kind && !f.required && f.columnWidth == "100%"
    ensures f.labelText == "New " + TypeName(kind) + " field" && f.name == "field_" + nameSuffix
  {
    var base := Field(id, kind, "New " + TypeName(kind) + " field", "field_" + nameSuffix,
                      false, "100%", None, None, None);
    if kind == Text || kind == Email then base.(placeholder := Some("Enter " + TypeName(kind)))
    else if kind == Select || kind == Checkbox || kind == Radio then base.(options := Some(DefaultOptions))
    else if kind == Acceptance then base.(content := Some(AgreeContent))
    else base
  }

  /**
   * A new field spans a width the selector offers, is a panel buffer the settings panel
   * can start from, and has exactly the optional keys whose editors the settings panel shows for its
   * kind (a select gets the placeholder editor but starts without a placeholder),
   * holding the fixed default text of that key.
   */
  lemma DefaultFieldFitsEditors(kind: Kind, id: string, nameSuffix: string)
    ensures var f := DefaultField(kind, id, nameSuffix);
      && f.columnWidth in ColumnWidths
      && Reachable(f, f)
      && (f.options.Some? <==> ShowsOptionsEditor(kind))
      && (f.content.Some? <==> ShowsContentEditor(kind))
      && (f.placeholder.Some? <==> ShowsPlaceholderEditor(kind) && kind != Select)
      && (f.placeholder.Some? ==> f.placeholder.value == "Enter " + TypeName(kind))
      && (f.options.Some? ==> f.options.value == DefaultOptions)
      && (f.content.Some? ==> f.content.value == AgreeContent)
  {
  }

  /** The default options decode to two labelled values. */
  lemma DefaultOptionsDecode()
    ensures FormField.ParseOption(DefaultOptions[0]) == FormField.Choice("Option 1", Some("option1"))
    ensures FormField.ParseOption(DefaultOptions[1]) == FormField.Choice("Option 2", Some("option2"))
  {
    assert DefaultOptions[0] == "Option 1" + "=" + "option1";
    assert DefaultOptions[1] == "Option 2" + "=" + "option2";
    FormField.ParseEncodedOption("Option 1", "option1");
    FormField.ParseEncodedOption("Option 2", "option2");
  }

  /** A new select offers the empty "Select an option" entry and the two default options. */
  lemma DefaultSelectChoices(id: string, nameSuffix: string)
    ensures FormField.SelectChoices(DefaultField(Select, id, nameSuffix)) == [
      FormField.Choice("Select an option", Some("")),
      FormField.Choice("Option 1", Some("option1")),
      FormField.Choice("Option 2", Some("option2"))]
  {
    DefaultOptionsDecode();
  }

  // ---------------------------------------------------------------- lookups and drops

  /** `fields[fields.findIndex(f => f.id === id)]`: undefined when no field carries the id. */
  function FieldWithId(fields: seq<Field>, id: string): (r: Option<Field>)
    ensures r.Some? <==> Present(fields, id)
    ensures r.Some? ==> r.value.id == id && r.value in fields
    ensures r.Some? ==> r.value == fields[IndexOf(fields, id)]
  {
    var k := IndexOf(fields, id);
    if k == -1 then None else Some(fields[k])
  }

  /** The fields after a palette drop of `kind` at gap `index`. */
  function Dropped(fields: seq<Field>, index: nat, kind: Kind, id: string, nameSuffix: string): seq<Field>
  {
    InsertAt(fields, index, DefaultField(kind, id, nameSuffix))
  }

  /**
   * With fresh ids, the dropped field is found at its gap (the end for a gap past
   * the end), and deleting it gives the fields back.
   */
  lemma DropThenDelete(fields: seq<Field>, index: nat, kind: Kind, id: string, nameSuffix: string)
    requires UniqueIds(fields) && !Present(fields, id)
    ensures var r := Dropped(fields, index, kind, id, nameSuffix);
      && UniqueIds(r)
      && IndexOf(r, id) == Clamp(index, |fields|)
      && Remove(r, id) == fields
  {
    var f := DefaultField(kind, id, nameSuffix);
    var r := Dropped(fields, index, kind, id, nameSuffix);
    var c := Clamp(index, |fields|);
    InsertKeepsUniqueIds(fields, index, f);
    assert r[c].id == id;
    RemovePresent(r, c);
    RemoveInserted(fields, index, f);
  }

  // ---------------------------------------------------------------- the session

  /** The actions of a field's hover toolbar. */
  datatype Action = OpenSettings | DuplicateField | DeleteField

  /** The builder's state: the schema and the slots of the editing session. */
  class Builder {
    var schema: FormSchema
    var isPreview: bool
    /** The field whose settings panel is open. */
    var selectedField: Option<Field>
    /** The palette kind being dragged. */
    var draggedFieldType: Option<Kind>
    /** The gap showing the ghost of the dragged kind. */
    var dropIndex: Option<nat>
    /** The canvas field being dragged to a new place. */
    var draggedFieldIndex: Option<nat>

    /** Ids are unique, so an id names one field for settings, duplicate, delete and save. */
    ghost predicate Valid()
      reads this
    {
      UniqueIds(schema.fields)
    }

    /** The session starts in edit mode on the initial schema, with every slot empty. */
    constructor (initial: FormSchema)
      requires UniqueIds(initial.fields)
      ensures Valid() && schema == initial && !isPreview
      ensures selectedField == None && draggedFieldType == None
      ensures dropIndex == None && draggedFieldIndex == None
    {
      schema := initial;
      isPreview := false;
      selectedField := None;
      draggedFieldType := None;
      dropIndex := None;
      draggedFieldIndex := None;
    }

    /**
     * `handleFieldAction(fieldId, action)`. Settings opens the panel on the field with
     * the id (none when no field has it); duplicate inserts a copy right after it under
     * the fresh id `newId`; delete drops every field with the id.
     */
    method HandleFieldAction(fieldId: string, action: Action, newId: string)
      requires Valid()
      requires action == DuplicateField ==> Present(schema.fields, fieldId) && !Present(schema.fields, newId)
      modifies this`schema, this`selectedField
      ensures Valid()
      ensures action == OpenSettings ==>
        schema == old(schema) && selectedField == FieldWithId(old(schema.fields), fieldId)
      ensures action == DuplicateField ==>
        schema == old(schema).(fields := Duplicate(old(schema.fields), fieldId, newId))
        && selectedField == old(selectedField)
      ensures action == DeleteField ==>
        schema == old(schema).(fields := Remove(old(schema.fields), fieldId))
        && selectedField == old(selectedField)
    {
      match action
      case OpenSettings =>
        selectedField := FieldWithId(schema.fields, fieldId);
      case DuplicateField =>
        DuplicateKeepsUniqueIds(schema.fields, fieldId, newId);
        schema := schema.(fields := Duplicate(schema.fields, fieldId, newId));
      case DeleteField =>
        RemoveKeepsUniqueIds(schema.fields, fieldId);
        schema := schema.(fields := Remove(schema.fields, fieldId));
    }

    /** `handleDragStart(fieldType)`: a palette item starts being dragged. */
    method HandleDragStart(kind: Kind)
      modifies this`draggedFieldType
      ensures draggedFieldType == Some(kind)
    {
      draggedFieldType := Some(kind);
    }

    /**
     * `handleDrop(e, index)`: without a dragged kind nothing happens; otherwise a
     * default field of that kind is spliced in at `index` and both the dragged kind
     * and the ghost gap are cleared.
     */
    method HandleDrop(index: nat, newId: string, nameSuffix: string)
      requires Valid() && !Present(schema.fields, newId)
      modifies this`schema, this`draggedFieldType, this`dropIndex
      ensures Valid()
      ensures old(draggedFieldType).None? ==>
        schema == old(schema) && draggedFieldType == None && dropIndex == old(dropIndex)
      ensures old(draggedFieldType).Some? ==>
        schema == old(schema).(fields := Dropped(old(schema.fields), index, old(draggedFieldType).value, newId, nameSuffix))
        && draggedFieldType == None && dropIndex == None
    {
      if draggedFieldType.None? {
        return;
      }
      InsertKeepsUniqueIds(schema.fields, index, DefaultField(draggedFieldType.value, newId, nameSuffix));
      schema := schema.(fields := Dropped(schema.fields, index, draggedFieldType.value, newId, nameSuffix));
      draggedFieldType := None;
      dropIndex := None;
    }

    /** `handleFieldSave(updatedField)`: the field with the saved record's id is replaced by it. */
    method HandleFieldSave(updated: Field)
      requires Valid()
      modifies this`schema
      ensures Valid()
      ensures schema == old(schema).(fields := Replace(old(schema.fields), updated))
    {
      ReplaceKeepsUniqueIds(schema.fields, updated);
      schema := schema.(fields := Replace(schema.fields, updated));
    }

    /** `handleFieldReorder(fromIndex, toIndex)`. */
    method HandleFieldReorder(from: nat, to: nat)
      requires Valid() && from < |schema.fields|
      modifies this`schema
      ensures Valid()
      ensures schema == old(schema).(fields := Reorder(old(schema.fields), from, to))
    {
      ReorderKeepsUniqueIds(schema.fields, from, to);
      schema := schema.(fields := Reorder(schema.fields, from, to));
    }

    /** `handleFieldDragStart(index)`: a canvas field starts being dragged. */
    method HandleFieldDragStart(index: nat)
      modifies this`draggedFieldIndex
      ensures draggedFieldIndex == Some(index)
    {
      draggedFieldIndex := Some(index);
    }

    /** `handleFieldDragEnd`: the canvas drag is over, wherever it ended. */
    method HandleFieldDragEnd()
      modifies this`draggedFieldIndex
      ensures draggedFieldIndex == None
    {
      draggedFieldIndex := None;
    }

    /** Dragging over the gap above field `index`: the ghost moves there, for palette drags only. */
    method GapDragOver(index: nat)
      modifies this`dropIndex
      ensures dropIndex == if old(draggedFieldIndex).None? then Some(index) else old(dropIndex)
    {
      if draggedFieldIndex.None? {
        dropIndex := Some(index);
      }
    }

    /**
     * A drop on the gap above field `index`: a canvas drag reorders (and leaves the
     * dragged index and the ghost gap as they were), a palette drag inserts there.
     */
    method GapDrop(index: nat, newId: string, nameSuffix: string)
      requires Valid() && !Present(schema.fields, newId)
      requires draggedFieldIndex.Some? ==> draggedFieldIndex.value < |schema.fields|
      modifies this`schema, this`draggedFieldType, this`dropIndex
      ensures Valid()
      ensures old(draggedFieldIndex).Some? ==>
        schema == old(schema).(fields := Reorder(old(schema.fields), old(draggedFieldIndex).value, index))
        && draggedFieldType == old(draggedFieldType) && dropIndex == old(dropIndex)
      ensures old(draggedFieldIndex).None? && old(draggedFieldType).None? ==>
        schema == old(schema) && draggedFieldType == None && dropIndex == old(dropIndex)
      ensures old(draggedFieldIndex).None? && old(draggedFieldType).Some? ==>
        schema == old(schema).(fields := Dropped(old(schema.fields), index, old(draggedFieldType).value, newId, nameSuffix))
        && draggedFieldType == None && dropIndex == None
    {
      if draggedFieldIndex.Some? {
        HandleFieldReorder(draggedFieldIndex.value, index);
        return;
      }
      HandleDrop(index, newId, nameSuffix);
    }

    /** Leaving any drop zone hides the ghost. */
    method DragLeave()
      modifies this`dropIndex
      ensures dropIndex == None
    {
      dropIndex := None;
    }

    /** Dragging over the bottom zone puts the ghost after the last field, for either drag. */
    method BottomDragOver()
      modifies this`dropIndex
      ensures dropIndex == Some(|schema.fields|)
    {
      dropIndex := Some(|schema.fields|);
    }

    /**
     * A drop on the bottom zone: a canvas drag reorders to gap `fields.length` and ends
     * the canvas drag, a palette drag appends; the ghost is hidden either way.
     */
    method BottomDrop(newId: string, nameSuffix: string)
      requires Valid() && !Present(schema.fields, newId)
      requires draggedFieldIndex.Some? ==> draggedFieldIndex.value < |schema.fields|
      modifies this`schema, this`draggedFieldType, this`dropIndex, this`draggedFieldIndex
      ensures Valid() && dropIndex == None
      ensures old(draggedFieldIndex).Some? ==>
        schema == old(schema).(fields := Reorder(old(schema.fields), old(draggedFieldIndex).value, |old(schema.fields)|))
        && draggedFieldType == old(draggedFieldType) && draggedFieldIndex == None
      ensures old(draggedFieldIndex).None? && old(draggedFieldType).None? ==>
        schema == old(schema) && draggedFieldType == None && draggedFieldIndex == None
      ensures old(draggedFieldIndex).None? && old(draggedFieldType).Some? ==>
        schema == old(schema).(fields := old(schema.fields) + [DefaultField(old(draggedFieldType).value, newId, nameSuffix)])
        && draggedFieldType == None && draggedFieldIndex == None
    {
      if draggedFieldIndex.Some? {
        HandleFieldReorder(draggedFieldIndex.value, |schema.fields|);
        draggedFieldIndex := None;
      } else {
        if draggedFieldType.Some? {
          var f := DefaultField(draggedFieldType.value, newId, nameSuffix);
          assert Dropped(schema.fields, |schema.fields|, draggedFieldType.value, newId, nameSuffix)
            == schema.fields + [f];
        }
        HandleDrop(|schema.fields|, newId, nameSuffix);
      }
      dropIndex := None;
    }

    /** Dragging over the empty canvas puts the ghost at gap 0. */
    method CanvasDragOver()
      modifies this`dropIndex
      ensures dropIndex == Some(0)
    {
      dropIndex := Some(0);
    }

    /** Closing the settings panel, with or without saving. */
    method CloseSettings()
      modifies this`selectedField
      ensures selectedField == None
    {
      selectedField := None;
    }

    /** The panel's save: `onSave(editedField)` then `onClose()`. */
    method SaveSettings(saved: Field)
      requires Valid()
      modifies this`schema, this`selectedField
      ensures Valid() && selectedField == None
      ensures schema == old(schema).(fields := Replace(old(schema.fields), saved))
    {
      HandleFieldSave(saved);
      CloseSettings();
    }

    /** The header toggle: disabled on an empty form, otherwise it switches mode and its label. */
    method PressPreviewToggle()
      modifies this`isPreview
      ensures isPreview == if FormHeader.IsFormEmpty(schema) then old(isPreview) else !old(isPreview)
      ensures !FormHeader.IsFormEmpty(schema) ==>
        FormHeader.ToggleLabel(isPreview) != FormHeader.ToggleLabel(old(isPreview))
    {
      if !FormHeader.IsFormEmpty(schema) {
        isPreview := !isPreview;
      }
    }

    /** The header's clear button, which exists in edit mode only. */
    method PressClear()
      requires FormHeader.ClearButtonShown(isPreview)
      modifies this`schema
      ensures Valid()
      ensures schema == FormHeader.ClearCanvas(old(schema))
    {
      schema := FormHeader.ClearCanvas(schema);
    }
  }
}
