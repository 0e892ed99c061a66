/** The header above the canvas: the preview/edit toggle and the clear-canvas button. */
module FormHeader {
  import opened Schema

  /** The clear-canvas updater `prev => ({ ...prev, fields: [] })`. */
  function ClearCanvas(s: FormSchema): (r: FormSchema)
    ensures r.fields == []
    ensures r.name == s.name && r.successMessage == s.successMessage
  {
    s.(fields := [])
  }

  /**
   * Clearing leaves an empty form, which disables the preview toggle. The clear button
   * is only styled as disabled on an empty form, so it can be pressed again; doing so
   * changes nothing.
   */
  lemma ClearIdempotent(s: FormSchema)
    ensures IsFormEmpty(ClearCanvas(s))
    ensures ClearCanvas(ClearCanvas(s)) == ClearCanvas(s)
    ensures IsFormEmpty(s) ==> ClearCanvas(s) == s
  {
  }

  /** `isFormEmpty`, which disables the preview toggle. */
  predicate IsFormEmpty(s: FormSchema)
  {
    |s.fields| == 0
  }

  /** The toggle names the mode it switches to. */
  function ToggleLabel(isPreview: bool): (caption: string)
    ensures caption == "Edit" <==> isPreview
    ensures caption == "Preview" <==> !isPreview
  {
    if isPreview then "Edit" else "Preview"
  }

  /** The clear button is rendered in edit mode only. */
  predicate ClearButtonShown(isPreview: bool)
  {
    !isPreview
  }
}
