/**
 * The settings panel: it edits a copy of one field key by key, shows the options one
 * per line and reads them back from the textarea, shows the editors that fit the
 * field's kind, and hands the edited copy to the builder on save.
 */
module Settings {
  import opened Optional
  import opened Arrays
  import opened Strings
  import opened FieldKinds
  import opened Schema

  // ---------------------------------------------------------------- options codec

  /** The test of `filter(line => line.trim())`: a line is kept when its trim is non-empty. */
  predicate KeepLine(line: string)
  {
    Trim(line) != ""
  }

  /** `handleOptionsChange`: the textarea split on "\n", without the blank lines. */
  function ParseOptions(text: string): (opts: seq<string>)
    ensures forall i :: 0 <= i < |opts| ==> !IsBlank(opts[i])
  {
    Filter(Split(text, '\n'), KeepLine)
  }

  /** The textarea content: `options?.join("\n") || ""`. */
  function DisplayOptions(options: Option<seq<string>>): (text: string)
    ensures (options.None? || options.value == []) ==> text == ""
    ensures options.Some? && options.value != [] ==> options.value[0] <= text
  {
    if options.Some? then Join(options.value, '\n') else ""
  }

  /** A single line is kept verbatim, untrimmed, unless it is blank. */
  lemma ParseOneLine(line: string)
    requires '\n' !in line
    ensures ParseOptions(line) == if IsBlank(line) then [] else [line]
  {
    SplitNoSeparator(line, '\n');
    assert [line][1..] == [];
  }

  /** The lines are read one at a time, in order. */
  lemma ParseLines(above: string, below: string)
    ensures ParseOptions(above + "\n" + below) == ParseOptions(above) + ParseOptions(below)
  {
    SplitConcat(above, '\n', below);
    FilterConcat(Split(above, '\n'), Split(below, '\n'), KeepLine);
  }

  /** Every option read back is a non-blank line of the textarea, and every such line is read. */
  lemma ParsedOptionsAreLines(text: string, o: string)
    ensures o in ParseOptions(text) <==> o in Split(text, '\n') && !IsBlank(o)
    ensures o in ParseOptions(text) ==> '\n' !in o
  {
    FilterMembers(Split(text, '\n'), KeepLine, o);
  }

  /** Options without line breaks or blank entries survive display followed by re-parse. */
  lemma DisplayParseRoundTrip(opts: seq<string>)
    requires forall i :: 0 <= i < |opts| ==> '\n' !in opts[i] && !IsBlank(opts[i])
    ensures ParseOptions(DisplayOptions(Some(opts))) == opts
  {
    if |opts| == 0 {
      assert Split("", '\n') == [""];
      assert IsBlank("");
      assert [""][1..] == [];
    } else {
      SplitJoin(opts, '\n');
      FilterKeepsAll(opts, KeepLine);
    }
  }

  /** Re-showing the options just read and reading them again changes nothing. */
  lemma ParseDisplayParse(text: string)
    ensures ParseOptions(DisplayOptions(Some(ParseOptions(text)))) == ParseOptions(text)
  {
    var opts := ParseOptions(text);
    forall i | 0 <= i < |opts| ensures '\n' !in opts[i] {
      ParsedOptionsAreLines(text, opts[i]);
    }
    DisplayParseRoundTrip(opts);
  }

  // ---------------------------------------------------------------- editors per kind

  predicate ShowsLabelEditor(k: Kind) { k != Acceptance }

  predicate ShowsPlaceholderEditor(k: Kind) { k == Text || k == Email || k == Select }

  predicate ShowsOptionsEditor(k: Kind) { k == Select || k == Checkbox || k == Radio }

  predicate ShowsContentEditor(k: Kind) { k == Acceptance }

  /** The column widths the width selector offers. */
  const ColumnWidths: seq<string> := ["33%", "50%", "66%", "100%"]

  /** The panel renders an editor for the key when the field has this kind; name, required and width always. */
  predicate Edits(k: Kind, a: Attr)
  {
    match a
    case Label => ShowsLabelEditor(k)
    case Placeholder => ShowsPlaceholderEditor(k)
    case Options => ShowsOptionsEditor(k)
    case Content => ShowsContentEditor(k)
    case _ => true
  }

  /**
   * A value an editor can hand to `handleChange`: the input's text, the checkbox's flag,
   * or one of the widths the selector lists.
   */
  predicate Offers(a: Attr, v: AttrValue)
  {
    Fits(a, v) && (a == ColumnWidth ==> v.s in ColumnWidths)
  }

  /** One change an editor of the panel can make: a `handleChange` call or a textarea edit. */
  datatype Edit = Change(key: Attr, value: AttrValue) | OptionsText(text: string)

  /** The edit comes from an editor the panel shows for this kind. */
  predicate Shown(k: Kind, e: Edit)
  {
    match e
    case Change(key, value) => key != Options && Edits(k, key) && Offers(key, value)
    case OptionsText(_) => ShowsOptionsEditor(k)
  }

  /** All the edits come from editors the panel shows for this kind. */
  predicate AllShown(k: Kind, edits: seq<Edit>)
  {
    forall i :: 0 <= i < |edits| ==> Shown(k, edits[i])
  }

  /** The buffer after one edit. */
  function Step(g: Field, e: Edit): (r: Field)
    requires Shown(g.kind, e)
    ensures r.kind == g.kind
  {
    match e
    case Change(key, value) => Set(g, key, value)
    case OptionsText(text) => Set(g, Options, Lines(ParseOptions(text)))
  }

  /** The buffer after a series of edits, each applied to the result of the previous one. */
  function ApplyEdits(f: Field, edits: seq<Edit>): (r: Field)
    requires AllShown(f.kind, edits)
    ensures r.kind == f.kind
    decreases |edits|
  {
    if |edits| == 0 then f
    else
      Step(ApplyEdits(f, edits[..|edits| - 1]), edits[|edits| - 1])
  }

  /** The buffer a panel may hold for `f`: its id and kind, a listed width or the original one, and no key changed whose editor is hidden. */
  predicate Reachable(f: Field, g: Field)
  {
    && g.id == f.id && g.kind == f.kind
    && (g.columnWidth == f.columnWidth || g.columnWidth in ColumnWidths)
    && forall a :: !Edits(f.kind, a) ==> Get(g, a) == Get(f, a)
  }

  /**
   * Whatever the user does in the panel, a key without an editor for the field's kind
   * keeps its value (an acceptance field keeps its label, a text field its options), and
   * the width is either the original one or one the selector lists.
   */
  lemma {:induction false} EditsStayReachable(f: Field, edits: seq<Edit>)
    requires AllShown(f.kind, edits)
    ensures Reachable(f, ApplyEdits(f, edits))
  {
    if |edits| > 0 {
      var prefix := edits[..|edits| - 1];
      assert AllShown(f.kind, prefix) by {
        forall i | 0 <= i < |prefix| ensures Shown(f.kind, prefix[i]) {
          assert prefix[i] == edits[i];
        }
      }
      EditsStayReachable(f, prefix);
      StepStaysReachable(f, ApplyEdits(f, prefix), edits[|edits| - 1]);
    }
  }

  /** One shown edit keeps a reachable buffer reachable. */
  lemma StepStaysReachable(f: Field, g: Field, e: Edit)
    requires Reachable(f, g) && Shown(f.kind, e)
    ensures Reachable(f, Step(g, e))
  {
    var key := if e.Change? then e.key else Options;
    var value := if e.Change? then e.value else Lines(ParseOptions(e.text));
    assert Step(g, e) == Set(g, key, value);
    forall a | !Edits(f.kind, a) ensures Get(Set(g, key, value), a) == Get(f, a) {
      assert a != key;
    }
  }

  // ---------------------------------------------------------------- the panel

  /** The open settings panel and its edit buffer. */
  class Panel {
    /** The field the panel was opened on; the buffer is a copy, so this never changes. */
    const field: Field
    var editedField: Field

    /**
     * The buffer keeps the id and the kind, so a save targets the field the panel was
     * opened on; keys whose editor is hidden keep the field's value; the width is the
     * field's own or one the selector lists.
     */
    ghost predicate Valid()
      reads this
    {
      Reachable(field, editedField)
    }

    constructor (field: Field)
      ensures Valid() && this.field == field && editedField == field
    {
      this.field := field;
      editedField := field;
    }

    /** `handleChange(key, value)`, as the label, name, placeholder, required, width and content editors call it. */
    method HandleChange(key: Attr, value: AttrValue)
      requires Valid() && Shown(field.kind, Change(key, value))
      modifies this`editedField
      ensures Valid()
      ensures editedField == Set(old(editedField), key, value)
    {
      StepStaysReachable(field, editedField, Change(key, value));
      editedField := Step(editedField, Change(key, value));
    }

    /** `handleOptionsChange(text)`: the buffer gets the options read from the textarea. */
    method HandleOptionsChange(text: string)
      requires Valid() && ShowsOptionsEditor(field.kind)
      modifies this`editedField
      ensures Valid()
      ensures editedField == Set(old(editedField), Options, Lines(ParseOptions(text)))
    {
      StepStaysReachable(field, editedField, OptionsText(text));
      editedField := Step(editedField, OptionsText(text));
    }

    /**
     * `handleSave`: the buffer is what the panel hands to `onSave`; closing the panel
     * (`onClose`) is the builder's part, see `FormBuilder.Builder.SaveSettings`.
     */
    method HandleSave() returns (saved: Field)
      requires Valid()
      ensures saved == editedField
      ensures saved.id == field.id && saved.kind == field.kind
      ensures forall a :: !Edits(field.kind, a) ==> Get(saved, a) == Get(field, a)
      ensures field.columnWidth in ColumnWidths ==> saved.columnWidth in ColumnWidths
    {
      saved := editedField;
    }
  }
}
